/**
 The data part of the migration that merges each user's conversations into one
 (migrations/versions/20260809_0005_canonical_conversations.py), with the cascading deletes of
 the schema.  Ids are numbers: the text order of UUIDs is their numeric order.
 */
module CanonicalMigration {
  import opened Options

  datatype Conversation = Conversation(
    user: nat, provider: string, externalId: string, service: Option<string>, status: string, createdAt: int,
      updatedAt: int)

  datatype Channel = Channel(
    conversation: nat, provider: string, externalId: string, service: Option<string>, status: string, createdAt: int,
      updatedAt: int)

  datatype Times = Times(sentAt: Option<int>, deliveredAt: Option<int>, readAt: Option<int>)

  datatype Message = Message(
    conversation: nat, binding: Option<nat>, provider: string, externalId: Option<string>, key: Option<string>,
    direction: string, status: string, payload: nat, times: Times, createdAt: int, updatedAt: int)

  datatype Delivery = Delivery(
    message: nat, channel: nat, provider: string, externalId: Option<string>, key: Option<string>, status: string,
    payload: nat, times: Times, createdAt: int, updatedAt: int)

  /** Agent runs only by the conversation they belong to. */
  datatype Tables = Tables(
    conversations: map<nat, Conversation>, channels: map<nat, Channel>, messages: map<nat, Message>,
    deliveries: map<nat, Delivery>, runs: map<nat, nat>)

  const DELIVERY_STATUSES: set<string> := {"pending", "sent", "delivered", "read", "failed"}

  function Allowed(status: string): string { if status in DELIVERY_STATUSES then status else "pending" }

  /** Fresh ids for the rows the migration creates. */
  datatype Ids = Ids(channel: nat -> nat, delivery: nat -> nat)

  ghost predicate Fresh(ids: Ids) { Injective(ids.channel) && Injective(ids.delivery) }

  ghost predicate Injective(f: nat -> nat) { forall a, b :: f(a) == f(b) ==> a == b }

  // ---------------------------------------------------------------- the earliest conversation

  predicate SameUser(cs: map<nat, Conversation>, a: nat, b: nat) {
    a in cs && b in cs && cs[a].user == cs[b].user
  }

  predicate NotAfter(cs: map<nat, Conversation>, a: nat, b: nat) {
    && a in cs && b in cs
    && (cs[a].createdAt < cs[b].createdAt || (cs[a].createdAt == cs[b].createdAt && a <= b))
  }

  /** The conversation that its user's conversations are merged into. */
  predicate IsCanonical(cs: map<nat, Conversation>, k: nat) {
    k in cs && forall d | d in cs && cs[d].user == cs[k].user :: NotAfter(cs, k, d)
  }

  predicate CanonicalFor(cs: map<nat, Conversation>, c: nat, k: nat) { IsCanonical(cs, k) && SameUser(cs, c, k) }

  /** The latest update among the conversations of the user of `k`. */
  ghost predicate IsLatest(cs: map<nat, Conversation>, k: nat, t: int) {
    && (exists d :: SameUser(cs, k, d) && cs[d].updatedAt == t)
    && (forall d | d in cs && SameUser(cs, k, d) :: cs[d].updatedAt <= t)
  }

  // ---------------------------------------------------------------- what the upgrade does

  /** Foreign keys of the old schema, and the new tables still empty. */
  ghost predicate OldOk(t: Tables) {
    && t.channels == map[] && t.deliveries == map[]
    && (forall m | m in t.messages :: t.messages[m].conversation in t.conversations && t.messages[m].binding.None?)
    && (forall r | r in t.runs :: t.runs[r] in t.conversations)
  }

  predicate IsOutbound(m: Message) { m.direction == "outbound" }

  /** A conversation survives exactly when it is its user's earliest. */
  ghost predicate ConversationsUpgraded(t: Tables, u: Tables) {
    && (forall k :: k in u.conversations <==> IsCanonical(t.conversations, k))
    && (forall k | k in u.conversations :: SurvivorOf(t, u, k))
  }

  ghost predicate SurvivorOf(t: Tables, u: Tables, k: nat) {
    && k in u.conversations
    && k in t.conversations && IsLatest(t.conversations, k, u.conversations[k].updatedAt)
    && u.conversations[k] == Stripped(t.conversations[k].(updatedAt := u.conversations[k].updatedAt))
  }

  /** A surviving row: active, its provider columns dropped. */
  function Stripped(c: Conversation): Conversation {
    c.(status := "active", provider := "", externalId := "", service := None)
  }

  /** The channel of an old conversation keeps its provider ids and hangs off the survivor. */
  ghost predicate ChannelOf(t: Tables, u: Tables, ids: Ids, c: nat) {
    && c in t.conversations
    && (var id, row := ids.channel(c), t.conversations[c];
       && id in u.channels && CanonicalFor(t.conversations, c, u.channels[id].conversation)
       && u.channels[id] == Channel(u.channels[id].conversation, row.provider, row.externalId, row.service,
         row.status, row.createdAt, row.updatedAt))
  }

  ghost predicate ChannelsUpgraded(t: Tables, u: Tables, ids: Ids) {
    && (forall c {:trigger ChannelOf(t, u, ids, c)} | c in t.conversations :: ChannelOf(t, u, ids, c))
    && (forall id | id in u.channels :: exists c :: c in t.conversations && ids.channel(c) == id)
  }

  const NoTimes := Times(None, None, None)

  /** The message as the upgrade leaves it, without the dropped time columns. */
  function Moved(m: Message, conversation: nat, binding: nat): Message {
    var moved := m.(conversation := conversation, binding := Some(binding), times := NoTimes);
    if IsOutbound(m) then moved.(externalId := None, status := "completed") else moved.(status := "received")
  }

  function DeliveryFor(m: Message, id: nat, channel: nat): Delivery {
    Delivery(id, channel, m.provider, m.externalId, m.key, Allowed(m.status), m.payload, m.times, m.createdAt,
      m.updatedAt)
  }

  ghost predicate MessageOf(t: Tables, u: Tables, ids: Ids, m: nat) {
    && m in t.messages
    && (var before := t.messages[m];
       && m in u.messages && CanonicalFor(t.conversations, before.conversation, u.messages[m].conversation)
       && u.messages[m] == Moved(before, u.messages[m].conversation, ids.channel(before.conversation)))
  }

  ghost predicate DeliveryOf(t: Tables, u: Tables, ids: Ids, m: nat) {
    && m in t.messages
    && (IsOutbound(t.messages[m]) ==>
         ids.delivery(m) in u.deliveries &&
           u.deliveries[ids.delivery(m)] == DeliveryFor(t.messages[m], m, ids.channel(t.messages[m].conversation)))
  }

  ghost predicate MessagesUpgraded(t: Tables, u: Tables, ids: Ids) {
    && u.messages.Keys == t.messages.Keys
    && (forall m {:trigger MessageOf(t, u, ids, m)} | m in t.messages :: MessageOf(t, u, ids, m))
    && (forall m {:trigger DeliveryOf(t, u, ids, m)} | m in t.messages :: DeliveryOf(t, u, ids, m))
    && (forall id | id in u.deliveries ::
         exists m :: m in t.messages && IsOutbound(t.messages[m]) && ids.delivery(m) == id)
  }

  ghost predicate RunsUpgraded(t: Tables, u: Tables) {
    u.runs.Keys == t.runs.Keys && forall r | r in t.runs :: CanonicalFor(t.conversations, t.runs[r], u.runs[r])
  }

  ghost predicate Upgraded(t: Tables, u: Tables, ids: Ids) {
    ConversationsUpgraded(t, u) && ChannelsUpgraded(t, u, ids) && MessagesUpgraded(t, u, ids) && RunsUpgraded(t, u)
  }

  // ---------------------------------------------------------------- the migration's steps

  /** Where each old conversation goes and which channel it gets. */
  datatype Plan = Plan(canonical: map<nat, nat>, channel: map<nat, nat>)

  function ChannelRow(c: Conversation, conversation: nat): Channel {
    Channel(conversation, c.provider, c.externalId, c.service, c.status, c.createdAt, c.updatedAt)
  }

  method Earliest(cs: map<nat, Conversation>, rows: set<nat>) returns (k: nat)
    requires rows != {} && rows <= cs.Keys
    ensures k in rows && forall d | d in rows :: NotAfter(cs, k, d)
  {
    k :| k in rows;
    var left := rows - {k};
    while left != {}
      invariant left <= rows && k in rows && forall d | d in rows - left :: NotAfter(cs, k, d)
      decreases left
    {
      var d :| d in left;
      left := left - {d};
      if !NotAfter(cs, k, d) {
        forall x | x in rows - left && NotAfter(cs, k, x) ensures NotAfter(cs, d, x) {}
        k := d;
      }
    }
  }

  method Latest(cs: map<nat, Conversation>, rows: set<nat>) returns (latest: int)
    requires rows != {} && rows <= cs.Keys
    ensures (exists d :: d in rows && cs[d].updatedAt == latest) && forall d | d in rows :: cs[d].updatedAt <= latest
  {
    var k :| k in rows;
    latest := cs[k].updatedAt;
    var left := rows - {k};
    while left != {}
      invariant left <= rows && k in rows && cs[k].updatedAt == latest
      invariant forall d | d in rows - left :: cs[d].updatedAt <= latest
      decreases left
    {
      var d :| d in left;
      left := left - {d};
      if cs[d].updatedAt > latest { k, latest := d, cs[d].updatedAt; }
    }
  }

  /** After the conversations were read: canonical rows carry the latest update, and every old
      conversation has its channel, still attached to itself. */
  ghost predicate Planned(t: Tables, u: Tables, ids: Ids, plan: Plan) {
    && u.messages == t.messages && u.runs == t.runs && u.deliveries == t.deliveries
    && PlanFor(t.conversations, ids, plan, t.conversations.Keys)
    && RowsFor(t.conversations, u.conversations, t.conversations.Keys)
    && ChannelsFor(t.conversations, u.channels, ids, t.conversations.Keys)
  }

  ghost predicate PlannedRow(cs: map<nat, Conversation>, ds: map<nat, Conversation>, c: nat) {
    && c in cs && c in ds
    && ds[c] == cs[c].(updatedAt := ds[c].updatedAt)
    && (if IsCanonical(cs, c) then IsLatest(cs, c, ds[c].updatedAt) else ds[c] == cs[c])
  }

  /** The messages in `done` follow the plan; outbound ones have handed their ids to a delivery. */
  ghost predicate MovedFor(ms: map<nat, Message>, ns: map<nat, Message>, ds: map<nat, Delivery>, ids: Ids,
        plan: Plan, done: set<nat>) {
    && ns.Keys == ms.Keys
    && (forall m {:trigger MovedEntry(ms, ns, ds, ids, plan, done, m)} | m in ms ::
         MovedEntry(ms, ns, ds, ids, plan, done, m))
    && (forall id {:trigger DeliveryMadeFor(ms, ids, done, id)} | id in ds :: DeliveryMadeFor(ms, ids, done, id))
  }

  predicate MovedEntry(ms: map<nat, Message>, ns: map<nat, Message>, ds: map<nat, Delivery>, ids: Ids, plan: Plan,
        done: set<nat>, m: nat) {
    && m in ms && m in ns
    && if m in done then MovedRow(ms[m], ns[m], plan) && (IsOutbound(ms[m]) ==> HasDelivery(ms[m], ds, ids, plan, m))
      else ns[m] == ms[m]
  }

  predicate MovedRow(before: Message, after: Message, plan: Plan) {
    && before.conversation in plan.canonical && before.conversation in plan.channel
    && after == Moved(before, plan.canonical[before.conversation], plan.channel[before.conversation])
  }

  predicate HasDelivery(before: Message, ds: map<nat, Delivery>, ids: Ids, plan: Plan, m: nat) {
    before.conversation in plan.channel && ids.delivery(m) in ds &&
      ds[ids.delivery(m)] == DeliveryFor(before, m, plan.channel[before.conversation])
  }

  predicate DeliveryMadeFor(ms: map<nat, Message>, ids: Ids, done: set<nat>, id: nat) {
    exists m :: m in done && m in ms && IsOutbound(ms[m]) && ids.delivery(m) == id
  }

  function WithDelivery(ds: map<nat, Delivery>, before: Message, ids: Ids, plan: Plan, m: nat): map<nat, Delivery>
    requires before.conversation in plan.channel
  {
    if IsOutbound(before) then ds[ids.delivery(m) := DeliveryFor(before, m, plan.channel[before.conversation])] else ds
  }

  lemma MovesOne(ms: map<nat, Message>, ns: map<nat, Message>, ds: map<nat, Delivery>, ids: Ids, plan: Plan,
        done: set<nat>, m: nat)
    requires MovedFor(ms, ns, ds, ids, plan, done) && Injective(ids.delivery) && m in ms && m !in done
    requires ms[m].conversation in plan.canonical && ms[m].conversation in plan.channel
    ensures MovedFor(ms, ns[m := Moved(ms[m], plan.canonical[ms[m].conversation], plan.channel[ms[m].conversation])],
                     WithDelivery(ds, ms[m], ids, plan, m), ids, plan, done + {m})
  {
    var ns' := ns[m := Moved(ms[m], plan.canonical[ms[m].conversation], plan.channel[ms[m].conversation])];
    var ds' := WithDelivery(ds, ms[m], ids, plan, m);
    forall n | n in ms ensures MovedEntry(ms, ns', ds', ids, plan, done + {m}, n) {
      assert MovedEntry(ms, ns, ds, ids, plan, done, n);
    }
    forall id | id in ds' ensures DeliveryMadeFor(ms, ids, done + {m}, id) {
      if id in ds {
        assert DeliveryMadeFor(ms, ids, done, id);
        var n :| n in done && n in ms && IsOutbound(ms[n]) && ids.delivery(n) == id;
        assert n in done + {m};
      } else {
        assert m in done + {m} && ids.delivery(m) == id;
      }
    }
  }

  // ---------------------------------------------------------------- merging with cascades

  /** Deleting a conversation deletes what refers to it: messages, channels, their deliveries
      and runs. */
  function Deleted(t: Tables, c: nat): Tables {
    var messages := map m | m in t.messages && t.messages[m].conversation != c :: t.messages[m];
    var channels := map h | h in t.channels && t.channels[h].conversation != c :: t.channels[h];
    Tables(t.conversations - {c}, channels, messages,
           map d | d in t.deliveries && StillThere(t, c, t.deliveries[d]) :: t.deliveries[d],
           map r | r in t.runs && t.runs[r] != c :: t.runs[r])
  }

  predicate StillThere(t: Tables, c: nat, d: Delivery) {
    && (d.message in t.messages ==> t.messages[d.message].conversation != c)
    && (d.channel in t.channels ==> t.channels[d.channel].conversation != c)
  }

  function Repointed(t: Tables, c: nat, k: nat): Tables {
    t.(runs := map r | r in t.runs :: if t.runs[r] == c then k else t.runs[r],
       channels := map h | h in t.channels ::
         if t.channels[h].conversation == c then t.channels[h].(conversation := k) else t.channels[h])
  }

  /** Once its runs and channels point to the survivor and its messages have moved, deleting a
      conversation takes nothing with it. */
  lemma NothingIsLost(t: Tables, c: nat, k: nat)
    requires c != k && forall m | m in t.messages :: t.messages[m].conversation != c
    ensures Deleted(Repointed(t, c, k), c) == Repointed(t, c, k).(conversations := t.conversations - {c})
  {
    var u := Repointed(t, c, k);
    var v := Deleted(u, c);
    assert v.messages == u.messages && v.channels == u.channels && v.runs == u.runs;
    assert v.deliveries == u.deliveries;
  }

  /** The merge with the conversations in `done` handled. */
  ghost predicate Merging(t: Tables, u: Tables, plan: Plan, done: set<nat>) {
    && u.messages == t.messages && u.deliveries == t.deliveries
    && u.runs.Keys == t.runs.Keys && u.channels.Keys == t.channels.Keys
    && u.conversations == Remaining(t.conversations, plan, done)
    && (forall r {:trigger MergedRun(t, u, plan, done, r)} | r in t.runs :: MergedRun(t, u, plan, done, r))
    && (forall h {:trigger MergedChannel(t, u, plan, done, h)} | h in t.channels :: MergedChannel(t, u, plan, done, h))
  }

  function Remaining(cs: map<nat, Conversation>, plan: Plan, done: set<nat>): map<nat, Conversation> {
    map c | c in cs && (c in done ==> Target(plan, c) == c) :: cs[c]
  }

  predicate MergedRun(t: Tables, u: Tables, plan: Plan, done: set<nat>, r: nat) {
    r in t.runs && r in u.runs && u.runs[r] == Redirected(plan, done, t.runs[r])
  }

  predicate MergedChannel(t: Tables, u: Tables, plan: Plan, done: set<nat>, h: nat) {
    h in t.channels && h in u.channels
    && u.channels[h] == t.channels[h].(conversation := Redirected(plan, done, t.channels[h].conversation))
  }

  function Redirected(plan: Plan, done: set<nat>, c: nat): nat { if c in done then Target(plan, c) else c }

  function Target(plan: Plan, c: nat): nat { if c in plan.canonical then plan.canonical[c] else c }

  ghost predicate Settling(plan: Plan) {
    forall d {:trigger Target(plan, d)} :: Target(plan, Target(plan, d)) == Target(plan, d)
  }

  lemma SkipsOne(t: Tables, u: Tables, plan: Plan, done: set<nat>, c: nat)
    requires Merging(t, u, plan, done) && Target(plan, c) == c
    ensures Merging(t, u, plan, done + {c})
  {
    assert Remaining(t.conversations, plan, done + {c}) == Remaining(t.conversations, plan, done);
    forall r | r in t.runs ensures MergedRun(t, u, plan, done + {c}, r) { assert MergedRun(t, u, plan, done, r); }
    forall h | h in t.channels
      ensures MergedChannel(t, u, plan, done + {c}, h)
    {
      assert MergedChannel(t, u, plan, done, h);
    }
  }

  lemma MergesOne(t: Tables, u: Tables, plan: Plan, done: set<nat>, c: nat)
    requires Merging(t, u, plan, done) && c !in done && Target(plan, c) != c && Settling(plan)
    requires forall m | m in t.messages :: t.messages[m].conversation != c
    ensures Merging(t, Deleted(Repointed(u, c, Target(plan, c)), c), plan, done + {c})
  {
    var k := Target(plan, c);
    NothingIsLost(u, c, k);
    var v := Deleted(Repointed(u, c, k), c);
    assert Remaining(t.conversations, plan, done + {c}) == Remaining(t.conversations, plan, done) - {c};
    forall r | r in t.runs ensures MergedRun(t, v, plan, done + {c}, r) {
      assert MergedRun(t, u, plan, done, r);
    }
    forall h | h in t.channels ensures MergedChannel(t, v, plan, done + {c}, h) {
      assert MergedChannel(t, u, plan, done, h);
    }
  }

  function ChannelRows(cs: map<nat, Conversation>, mine: set<nat>, ids: Ids): map<nat, Channel>
    requires mine <= cs.Keys && Injective(ids.channel)
  {
    map c | c in mine :: ids.channel(c) := ChannelRow(cs[c], c)
  }

  function Extended(plan: Plan, mine: set<nat>, canonical: nat, ids: Ids): Plan {
    Plan(plan.canonical + (map c | c in mine :: canonical), plan.channel + (map c | c in mine :: ids.channel(c)))
  }

  /** The plan as far as the users' conversations in `done` go. */
  ghost predicate PlanFor(cs: map<nat, Conversation>, ids: Ids, plan: Plan, done: set<nat>) {
    && plan.canonical.Keys == plan.channel.Keys == done
    && (forall c {:trigger PlanEntry(cs, ids, plan, c)} | c in done :: PlanEntry(cs, ids, plan, c))
  }

  predicate PlanEntry(cs: map<nat, Conversation>, ids: Ids, plan: Plan, c: nat) {
    c in plan.canonical && c in plan.channel && CanonicalFor(cs, c, plan.canonical[c]) &&
      plan.channel[c] == ids.channel(c)
  }

  ghost predicate RowsFor(cs: map<nat, Conversation>, ds: map<nat, Conversation>, done: set<nat>) {
    && ds.Keys == cs.Keys
    && (forall c {:trigger RowFor(cs, ds, done, c)} | c in cs :: RowFor(cs, ds, done, c))
  }

  ghost predicate RowFor(cs: map<nat, Conversation>, ds: map<nat, Conversation>, done: set<nat>, c: nat) {
    c in cs && c in ds && if c in done then PlannedRow(cs, ds, c) else ds[c] == cs[c]
  }

  ghost predicate ChannelsFor(cs: map<nat, Conversation>, hs: map<nat, Channel>, ids: Ids, done: set<nat>) {
    && (forall c {:trigger OwnChannel(cs, hs, ids, c)} | c in done :: OwnChannel(cs, hs, ids, c))
    && (forall id {:trigger MadeFor(ids, done, id)} | id in hs :: MadeFor(ids, done, id))
  }

  predicate OwnChannel(cs: map<nat, Conversation>, hs: map<nat, Channel>, ids: Ids, c: nat) {
    c in cs && ids.channel(c) in hs && hs[ids.channel(c)] == ChannelRow(cs[c], c)
  }

  predicate MadeFor(ids: Ids, done: set<nat>, id: nat) { exists c :: c in done && ids.channel(c) == id }

  function OfUser(cs: map<nat, Conversation>, user: nat): set<nat> { set c | c in cs && cs[c].user == user }

  function Users(cs: map<nat, Conversation>): set<nat> { set c | c in cs :: cs[c].user }

  function Without(cs: map<nat, Conversation>, users: set<nat>): set<nat> { set c | c in cs && cs[c].user !in users }

  lemma WithoutOneMore(cs: map<nat, Conversation>, users: set<nat>, user: nat)
    requires user in users && users <= Users(cs)
    ensures OfUser(cs, user) != {} && OfUser(cs, user) !! Without(cs, users) && Without(cs, users) <= cs.Keys
    ensures Without(cs, users - {user}) == Without(cs, users) + OfUser(cs, user)
  {
    var c :| c in cs && cs[c].user == user;
    assert c in OfUser(cs, user);
  }

  lemma ExtendsPlan(cs: map<nat, Conversation>, ids: Ids, plan: Plan, done: set<nat>, user: nat, canonical: nat)
    requires done <= cs.Keys && PlanFor(cs, ids, plan, done)
    requires canonical in OfUser(cs, user) && forall c | c in OfUser(cs, user) :: NotAfter(cs, canonical, c)
    ensures PlanFor(cs, ids, Extended(plan, OfUser(cs, user), canonical, ids), done + OfUser(cs, user))
  {
    var mine := OfUser(cs, user);
    var extended := Extended(plan, mine, canonical, ids);
    assert IsCanonical(cs, canonical);
    forall c | c in done + mine ensures PlanEntry(cs, ids, extended, c) {
      if c !in mine { assert PlanEntry(cs, ids, plan, c); }
    }
  }

  lemma UpdatesRows(cs: map<nat, Conversation>, ds: map<nat, Conversation>, done: set<nat>, user: nat,
        canonical: nat, latest: int)
    requires RowsFor(cs, ds, done) && canonical in OfUser(cs, user)
    requires forall c | c in OfUser(cs, user) :: c !in done && NotAfter(cs, canonical, c)
    requires exists d :: d in OfUser(cs, user) && cs[d].updatedAt == latest
    requires forall d | d in OfUser(cs, user) :: cs[d].updatedAt <= latest
    ensures RowsFor(cs, ds[canonical := ds[canonical].(updatedAt := latest)], done + OfUser(cs, user))
  {
    var mine := OfUser(cs, user);
    var ds' := ds[canonical := ds[canonical].(updatedAt := latest)];
    assert IsCanonical(cs, canonical);
    forall c | c in cs ensures RowFor(cs, ds', done + mine, c) {
      assert RowFor(cs, ds, done, c);
    }
  }

  lemma AnotherChannel(cs: map<nat, Conversation>, hs: map<nat, Channel>, ids: Ids, done: set<nat>, mine: set<nat>,
        c: nat)
    requires mine <= cs.Keys && Injective(ids.channel) && ChannelsFor(cs, hs, ids, done) && c in done && c !in mine
    ensures OwnChannel(cs, hs + ChannelRows(cs, mine, ids), ids, c)
  {
    assert OwnChannel(cs, hs, ids, c);
  }

  lemma AddsChannels(cs: map<nat, Conversation>, hs: map<nat, Channel>, ids: Ids, done: set<nat>, mine: set<nat>)
    requires done <= cs.Keys && mine <= cs.Keys && Injective(ids.channel) && ChannelsFor(cs, hs, ids, done)
    ensures ChannelsFor(cs, hs + ChannelRows(cs, mine, ids), ids, done + mine)
  {
    var more := ChannelRows(cs, mine, ids);
    var hs' := hs + more;
    forall c | c in done + mine ensures OwnChannel(cs, hs', ids, c) {
      if c in mine { assert ids.channel(c) in more; } else { AnotherChannel(cs, hs, ids, done, mine, c); }
    }
    forall id | id in hs' ensures MadeFor(ids, done + mine, id) {
      if id in more {
        var c :| c in mine && ids.channel(c) == id;
        assert c in done + mine;
      } else {
        assert MadeFor(ids, done, id);
        var c :| c in done && ids.channel(c) == id;
        assert c in done + mine;
      }
    }
  }

  class Database {
    var conversations: map<nat, Conversation>
    var channels: map<nat, Channel>
    var messages: map<nat, Message>
    var deliveries: map<nat, Delivery>
    var runs: map<nat, nat>

    ghost function All(): Tables
      reads this
    {
      Tables(conversations, channels, messages, deliveries, runs)
    }

    constructor (conversations: map<nat, Conversation>, messages: map<nat, Message>, runs: map<nat, nat>)
      ensures All() == Tables(conversations, map[], messages, map[], runs)
    {
      this.conversations, this.channels, this.messages, this.deliveries, this.runs :=
        conversations, map[], messages, map[], runs;
    }

    method DeleteConversation(c: nat)
      modifies this
      ensures All() == Deleted(old(All()), c)
    {
      var after := Deleted(Tables(conversations, channels, messages, deliveries, runs), c);
      conversations, channels, messages, deliveries, runs :=
        after.conversations, after.channels, after.messages, after.deliveries, after.runs;
    }

    method Repoint(c: nat, k: nat)
      modifies this
      ensures All() == Repointed(old(All()), c, k)
    {
      runs := map r | r in runs :: if runs[r] == c then k else runs[r];
      channels := map h | h in channels ::
        if channels[h].conversation == c then channels[h].(conversation := k) else channels[h];
    }

    /** One user: the surviving row gets the latest update, every row its channel. */
    method PlanUser(rows: map<nat, Conversation>, user: nat, ids: Ids, plan: Plan, ghost done: set<nat>)
      returns (extended: Plan)
      requires Injective(ids.channel) && done <= rows.Keys && OfUser(rows, user) != {} && OfUser(rows, user) !! done
      requires PlanFor(rows, ids, plan, done) && RowsFor(rows, conversations, done) &&
        ChannelsFor(rows, channels, ids, done)
      modifies this`conversations, this`channels
      ensures var more := done + OfUser(rows, user);
        PlanFor(rows, ids, extended, more) && RowsFor(rows, conversations, more) &&
          ChannelsFor(rows, channels, ids, more)
    {
      var mine := OfUser(rows, user);
      var canonical := Earliest(rows, mine);
      var latest := Latest(rows, mine);
      ExtendsPlan(rows, ids, plan, done, user, canonical);
      UpdatesRows(rows, conversations, done, user, canonical, latest);
      AddsChannels(rows, channels, ids, done, mine);
      conversations := conversations[canonical := conversations[canonical].(updatedAt := latest)];
      channels := channels + ChannelRows(rows, mine, ids);
      extended := Extended(plan, mine, canonical, ids);
    }

    /** Chooses each user's surviving conversation and gives every conversation its channel. */
    method PlanChannels(ids: Ids) returns (plan: Plan)
      requires Injective(ids.channel) && channels == map[]
      modifies this`conversations, this`channels
      ensures Planned(old(All()), All(), ids, plan)
    {
      plan := Plan(map[], map[]);
      var rows := conversations;
      var users := Users(rows);
      while users != {}
        invariant users <= Users(rows) && PlanFor(rows, ids, plan, Without(rows, users))
        invariant RowsFor(rows, conversations, Without(rows, users)) &&
          ChannelsFor(rows, channels, ids, Without(rows, users))
        decreases users
      {
        var user :| user in users;
        WithoutOneMore(rows, users, user);
        plan := PlanUser(rows, user, ids, plan, Without(rows, users));
        users := users - {user};
      }
      assert Without(rows, {}) == rows.Keys;
    }

    /** Moves every message and turns the outbound ones' ids and statuses into deliveries. */
    method MoveMessages(plan: Plan, ids: Ids)
      requires Injective(ids.delivery) && deliveries == map[]
      requires forall m | m in messages ::
        messages[m].conversation in plan.canonical && messages[m].conversation in plan.channel
      modifies this`messages, this`deliveries
      ensures MovedFor(old(messages), messages, deliveries, ids, plan, old(messages).Keys)
    {
      var rows, left := messages, messages.Keys;
      ghost var done: set<nat> := {};
      while left != {}
        invariant done + left == rows.Keys && done !! left
        invariant MovedFor(rows, messages, deliveries, ids, plan, done)
        decreases left
      {
        var m :| m in left;
        left := left - {m};
        var row := rows[m];
        MovesOne(rows, messages, deliveries, ids, plan, done, m);
        messages := messages[m := Moved(row, plan.canonical[row.conversation], plan.channel[row.conversation])];
        deliveries := WithDelivery(deliveries, row, ids, plan, m);
        done := done + {m};
      }
    }

    /** Merges every conversation into its survivor; nothing is lost to a cascade. */
    method MergeConversations(plan: Plan)
      requires Settling(plan) &&
        forall m | m in messages :: Target(plan, messages[m].conversation) == messages[m].conversation
      modifies this
      ensures Merging(old(All()), All(), plan, plan.canonical.Keys)
    {
      ghost var done: set<nat> := {};
      var left := plan.canonical.Keys;
      assert Remaining(conversations, plan, {}) == conversations;
      while left != {}
        invariant done + left == plan.canonical.Keys && done !! left
        invariant Merging(old(All()), All(), plan, done)
        decreases left
      {
        var c :| c in left;
        left := left - {c};
        if plan.canonical[c] != c {
          MergesOne(old(All()), All(), plan, done, c);
          Repoint(c, plan.canonical[c]);
          DeleteConversation(c);
        } else {
          SkipsOne(old(All()), All(), plan, done, c);
        }
        done := done + {c};
      }
    }

    method Upgrade(ids: Ids)
      requires OldOk(All()) && Fresh(ids)
      modifies this
      ensures Upgraded(old(All()), All(), ids)
    {
      ghost var t := All();
      var plan := PlanChannels(ids);
      ghost var p := All();
      forall m | m in messages
        ensures messages[m].conversation in plan.canonical && messages[m].conversation in plan.channel
      {
        TargetOf(t, ids, plan, t.messages[m].conversation);
      }
      MoveMessages(plan, ids);
      ghost var q := All();
      MovedAreSettled(t, p, q, ids, plan);
      MergeConversations(plan);
      ghost var v := All();
      UpgradedAtLast(t, p, q, v, ids, plan);
      conversations := Activated(conversations);
    }
  }

  function Activated(cs: map<nat, Conversation>): map<nat, Conversation> {
    map c | c in cs :: Stripped(cs[c])
  }

  lemma TargetOf(t: Tables, ids: Ids, plan: Plan, c: nat)
    requires PlanFor(t.conversations, ids, plan, t.conversations.Keys) && c in t.conversations
    ensures CanonicalFor(t.conversations, c, Target(plan, c)) && c in plan.canonical && c in plan.channel &&
      plan.channel[c] == ids.channel(c)
    ensures Target(plan, c) == c <==> IsCanonical(t.conversations, c)
    ensures Target(plan, Target(plan, c)) == Target(plan, c)
  {
    var k := Target(plan, c);
    assert PlanEntry(t.conversations, ids, plan, c) && PlanEntry(t.conversations, ids, plan, k);
  }

  lemma PlanSettles(t: Tables, ids: Ids, plan: Plan)
    requires PlanFor(t.conversations, ids, plan, t.conversations.Keys)
    ensures Settling(plan)
  {
    forall d ensures Target(plan, Target(plan, d)) == Target(plan, d) {
      if d in t.conversations { TargetOf(t, ids, plan, d); }
    }
  }

  lemma MovedAreSettled(t: Tables, p: Tables, q: Tables, ids: Ids, plan: Plan)
    requires OldOk(t) && Planned(t, p, ids, plan) &&
      MovedFor(p.messages, q.messages, q.deliveries, ids, plan, p.messages.Keys)
    ensures Settling(plan)
    ensures forall m | m in q.messages :: Target(plan, q.messages[m].conversation) == q.messages[m].conversation
  {
    PlanSettles(t, ids, plan);
    forall m | m in q.messages ensures Target(plan, q.messages[m].conversation) == q.messages[m].conversation {
      assert MovedEntry(p.messages, q.messages, q.deliveries, ids, plan, p.messages.Keys, m);
      TargetOf(t, ids, plan, t.messages[m].conversation);
    }
  }

  /** The steps of the migration one after the other. */
  ghost predicate Steps(t: Tables, p: Tables, q: Tables, v: Tables, ids: Ids, plan: Plan) {
    && OldOk(t) && Planned(t, p, ids, plan)
    && q == p.(messages := q.messages, deliveries := q.deliveries)
    && MovedFor(p.messages, q.messages, q.deliveries, ids, plan, p.messages.Keys)
    && Merging(q, v, plan, plan.canonical.Keys)
  }

  lemma SurvivorsAreCanonical(t: Tables, p: Tables, q: Tables, v: Tables, ids: Ids, plan: Plan, k: nat)
    requires Steps(t, p, q, v, ids, plan)
    ensures k in v.conversations <==> IsCanonical(t.conversations, k)
    ensures k in v.conversations ==> v.conversations[k] == p.conversations[k]
    ensures k in v.conversations ==> PlannedRow(t.conversations, p.conversations, k)
  {
    if k in t.conversations {
      TargetOf(t, ids, plan, k);
      assert RowFor(t.conversations, p.conversations, t.conversations.Keys, k);
    }
  }

  lemma ConversationsMerged(t: Tables, p: Tables, q: Tables, v: Tables, ids: Ids, plan: Plan)
    requires Steps(t, p, q, v, ids, plan)
    ensures ConversationsUpgraded(t, v.(conversations := Activated(v.conversations)))
  {
    var cs := Activated(v.conversations);
    forall k ensures k in cs <==> IsCanonical(t.conversations, k) { SurvivorsAreCanonical(t, p, q, v, ids, plan, k); }
    forall k | k in cs ensures SurvivorOf(t, v.(conversations := cs), k) {
      SurvivorsAreCanonical(t, p, q, v, ids, plan, k);
    }
  }

  lemma ChannelMerged(t: Tables, p: Tables, q: Tables, v: Tables, ids: Ids, plan: Plan, c: nat)
    requires Steps(t, p, q, v, ids, plan) && c in t.conversations
    ensures ChannelOf(t, v, ids, c)
  {
    TargetOf(t, ids, plan, c);
    assert OwnChannel(t.conversations, p.channels, ids, c);
    assert MergedChannel(q, v, plan, plan.canonical.Keys, ids.channel(c));
  }

  lemma ChannelsMerged(t: Tables, p: Tables, q: Tables, v: Tables, ids: Ids, plan: Plan)
    requires Steps(t, p, q, v, ids, plan)
    ensures ChannelsUpgraded(t, v, ids)
  {
    forall c | c in t.conversations ensures ChannelOf(t, v, ids, c) { ChannelMerged(t, p, q, v, ids, plan, c); }
    forall id | id in v.channels ensures exists c :: c in t.conversations && ids.channel(c) == id {
      assert MadeFor(ids, t.conversations.Keys, id);
      var c :| c in t.conversations.Keys && ids.channel(c) == id;
      assert c in t.conversations;
    }
  }

  lemma MessageMerged(t: Tables, p: Tables, q: Tables, v: Tables, ids: Ids, plan: Plan, m: nat)
    requires Steps(t, p, q, v, ids, plan) && m in t.messages
    ensures MessageOf(t, v, ids, m) && DeliveryOf(t, v, ids, m)
  {
    TargetOf(t, ids, plan, t.messages[m].conversation);
    assert MovedEntry(p.messages, q.messages, q.deliveries, ids, plan, p.messages.Keys, m);
  }

  lemma MessagesMerged(t: Tables, p: Tables, q: Tables, v: Tables, ids: Ids, plan: Plan)
    requires Steps(t, p, q, v, ids, plan)
    ensures MessagesUpgraded(t, v, ids)
  {
    forall m | m in t.messages
      ensures MessageOf(t, v, ids, m) && DeliveryOf(t, v, ids, m)
    {
      MessageMerged(t, p, q, v, ids, plan, m);
    }
    forall id | id in v.deliveries
      ensures exists m :: m in t.messages && IsOutbound(t.messages[m]) && ids.delivery(m) == id
    {
      assert DeliveryMadeFor(p.messages, ids, p.messages.Keys, id);
      var m :| m in p.messages && IsOutbound(p.messages[m]) && ids.delivery(m) == id;
      assert m in t.messages;
    }
  }

  lemma RunsMerged(t: Tables, p: Tables, q: Tables, v: Tables, ids: Ids, plan: Plan)
    requires Steps(t, p, q, v, ids, plan)
    ensures RunsUpgraded(t, v)
  {
    forall r | r in t.runs ensures CanonicalFor(t.conversations, t.runs[r], v.runs[r]) {
      TargetOf(t, ids, plan, t.runs[r]);
      assert MergedRun(q, v, plan, plan.canonical.Keys, r);
    }
  }

  lemma UpgradedAtLast(t: Tables, p: Tables, q: Tables, v: Tables, ids: Ids, plan: Plan)
    requires Steps(t, p, q, v, ids, plan)
    ensures Upgraded(t, v.(conversations := Activated(v.conversations)), ids)
  {
    ConversationsMerged(t, p, q, v, ids, plan);
    ChannelsMerged(t, p, q, v, ids, plan);
    MessagesMerged(t, p, q, v, ids, plan);
    RunsMerged(t, p, q, v, ids, plan);
    UpgradedIgnoresStatus(t, v, v.(conversations := Activated(v.conversations)), ids);
  }

  lemma UpgradedIgnoresStatus(t: Tables, v: Tables, u: Tables, ids: Ids)
    requires ChannelsUpgraded(t, v, ids) && MessagesUpgraded(t, v, ids) && RunsUpgraded(t, v) &&
      u == v.(conversations := u.conversations)
    ensures ChannelsUpgraded(t, u, ids) && MessagesUpgraded(t, u, ids) && RunsUpgraded(t, u)
  {
    forall c | c in t.conversations ensures ChannelOf(t, u, ids, c) { assert ChannelOf(t, v, ids, c); }
    forall m | m in t.messages ensures MessageOf(t, u, ids, m) && DeliveryOf(t, u, ids, m) {
      assert MessageOf(t, v, ids, m) && DeliveryOf(t, v, ids, m);
    }
  }
}
