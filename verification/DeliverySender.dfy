/**
 The sender's own code: the writes to one delivery row, and one undisturbed pass over the
 replies of a turn (agents/channel_delivery.py, services/channels.py).
 */
module DeliverySender {
  import opened Options
  import opened Delivery
  import opened OrderedSending

  // ---------------------------------------------------------------- one row, field by field

  class MessageDelivery {
    const key: string
    const message: nat
    var status: Status
    var externalId: Option<string>
    var sentAt: Option<int>
    var deliveredAt: Option<int>
    var readAt: Option<int>

    ghost function Contents(): Row
      reads this
    {
      Row(key, message, status, externalId, sentAt, deliveredAt, readAt)
    }

    constructor (key: string, message: nat)
      ensures Contents() == NewRow(key, message)
    {
      this.key, this.message, status, externalId := key, message, Pending, None;
      sentAt, deliveredAt, readAt := None, None, None;
    }

    method AdvanceStatus(target: Status)
      requires target.Sent? || target.Delivered? || target.Read?
      modifies this`status
      ensures status == Advanced(old(status), target)
      ensures Order(old(status)) <= Order(status) && (status == target || status == old(status))
    {
      if Order(status) <= Order(target) { status := target; }
    }

    method ApplyLifecycleEvent(event: Event, external: Option<string>, at: Option<int>, now: int)
      modifies this
      ensures Contents() == Applied(old(Contents()), Webhook(event, external, at, now))
      ensures Arrived(old(status)) ==> Order(old(status)) <= Order(status)
    {
      if external.Some? && externalId.None? { externalId := external; }
      match event {
        case SentEvent =>
          AdvanceStatus(Sent);
          sentAt := FirstOf(sentAt, at, now);
        case DeliveredEvent =>
          AdvanceStatus(Delivered);
          deliveredAt := FirstOf(deliveredAt, at, now);
        case ReadEvent =>
          AdvanceStatus(Read);
          readAt := FirstOf(readAt, at, now);
        case FailedEvent =>
          if !Arrived(status) { status := Failed; }
        case OtherEvent =>
      }
    }

    method MarkOutboundFailed()
      modifies this`status
      ensures Contents() == Applied(old(Contents()), MarkFailed)
      ensures Arrived(old(status)) ==> status == old(status)
    {
      if !Arrived(status) { status := Failed; }
    }

    method MarkOutboundSent(response: Option<string>, now: int)
      modifies this
      ensures Contents() == Applied(old(Contents()), MarkSent(response, now))
      ensures Order(status) > 0 && Order(old(status)) <= Order(status)
    {
      if response.Some? { externalId := response; }
      if status == Pending || status == Failed { status := Sent; }
      if sentAt.None? { sentAt := Some(now); }
    }
  }

  // ---------------------------------------------------------------- a pass as a function

  /** One bubble of the turn: its delivery key and its stored message. */
  datatype Reply = Reply(key: string, message: nat)

  function Replies(t: Turn): seq<Reply> {
    seq(|t.messages|, i requires 0 <= i < |t.messages| => Reply(Key(t, i), t.messages[i]))
  }

  /** The provider's answer to a request: an exception, or an accepted message's id if given. */
  datatype Answer = Exception | Response(id: Option<string>)

  /** The table after some bubbles, the bubbles requested, and whether the pass has stopped. */
  datatype Pass = Pass(rows: seq<Row>, sent: seq<nat>, raised: bool)

  function Created(rows: seq<Row>, reply: Reply): seq<Row> {
    if Find(rows, reply.key).Some? then rows else rows + [NewRow(reply.key, reply.message)]
  }

  function Bubble(p: Pass, i: nat, reply: Reply, answer: Answer, now: int): Pass {
    var rows := Created(p.rows, reply);
    var found := Find(rows, reply.key);
    if found.None? || !NeedsSend(rows[found.value].status, true) then Pass(rows, p.sent, false)
    else match answer
      case Exception => Pass(Written(rows, found.value, MarkFailed), p.sent + [i], true)
      case Response(id) => Pass(Written(rows, found.value, MarkSent(id, now)), p.sent + [i], false)
  }

  function PassTo(replies: seq<Reply>, send: nat -> Answer, now: int, rows: seq<Row>, i: nat): Pass
    requires i <= |replies|
  {
    if i == 0 then Pass(rows, [], false)
    else
      var p := PassTo(replies, send, now, rows, i - 1);
      if p.raised then p else Bubble(p, i - 1, replies[i - 1], send(i - 1), now)
  }

  ghost predicate Unique(rows: seq<Row>) {
    forall k, l | 0 <= k < l < |rows| :: rows[k].key != rows[l].key
  }

  ghost predicate Distinct(replies: seq<Reply>) {
    forall k, l | 0 <= k < l < |replies| :: replies[k].key != replies[l].key
  }

  lemma RepliesAreDistinct(t: Turn)
    ensures Distinct(Replies(t))
  {
    var replies := Replies(t);
    forall k, l | 0 <= k < l < |replies| ensures replies[k].key != replies[l].key {
      if Key(t, k) == Key(t, l) { KeysDiffer(t.base, k, l); }
    }
  }

  /** The bubble's row is there and no longer waits to be sent. */
  ghost predicate Handled(rows: seq<Row>, key: string) {
    exists id :: 0 <= id < |rows| && rows[id].key == key && Order(rows[id].status) > 0
  }

  class DeliveryTable {
    var rows: seq<Row>

    constructor ()
      ensures rows == []
    {
      rows := [];
    }

    method CreateOutboundDelivery(key: string, message: nat) returns (id: nat)
      requires Unique(rows)
      modifies this
      ensures rows == Created(old(rows), Reply(key, message)) && Unique(rows)
      ensures id < |rows| && rows[id].key == key && Find(rows, key) == Some(id)
    {
      var existing := Find(rows, key);
      FindSeesAll(rows, key, |rows|);
      if existing.Some? { return existing.value; }
      rows := rows + [NewRow(key, message)];
      id := |rows| - 1;
    }

    /** One undisturbed pass; `raised` when the provider's refusal ended it. */
    method DeliverReplies(t: Turn, send: nat -> Answer, now: int) returns (sent: seq<nat>, raised: bool)
      requires Unique(rows)
      modifies this
      ensures Unique(rows)
      ensures Pass(rows, sent, raised) == PassTo(Replies(t), send, now, old(rows), |t.messages|)
      ensures !raised ==> AllHandled(Replies(t), rows, |t.messages|)
    {
      sent, raised := [], false;
      ghost var replies := Replies(t);
      for ordinal := 0 to |t.messages|
        invariant Unique(rows)
        invariant PassTo(replies, send, now, old(rows), ordinal) == Pass(rows, sent, false)
      {
        var deliveryKey := DeliveryKey(t.base, ordinal);
        assert replies[ordinal] == Reply(deliveryKey, t.messages[ordinal]);
        var id := CreateOutboundDelivery(deliveryKey, t.messages[ordinal]);
        if !NeedsSend(rows[id].status, true) { continue; }
        sent := sent + [ordinal];
        var answer := send(ordinal);
        if answer.Exception? {
          rows := rows[id := Applied(rows[id], MarkFailed)];
          RaisedStays(replies, send, now, old(rows), ordinal + 1);
          return sent, true;
        }
        rows := rows[id := Applied(rows[id], MarkSent(answer.id, now))];
      }
      RepliesAreDistinct(t);
      PassHandles(replies, send, now, old(rows), |t.messages|);
    }
  }

  lemma {:induction false} RaisedStays(replies: seq<Reply>, send: nat -> Answer, now: int, rows: seq<Row>, i: nat)
    requires i <= |replies| && PassTo(replies, send, now, rows, i).raised
    ensures PassTo(replies, send, now, rows, |replies|) == PassTo(replies, send, now, rows, i)
    decreases |replies| - i
  {
    if i < |replies| { RaisedStays(replies, send, now, rows, i + 1); }
  }

  // ---------------------------------------------------------------- resuming

  lemma FindsTheRow(rows: seq<Row>, id: nat)
    requires Unique(rows) && id < |rows|
    ensures Find(rows, rows[id].key) == Some(id)
  {
    var found := Find(rows, rows[id].key);
    FindSeesAll(rows, rows[id].key, |rows|);
    assert rows[found.value].key == rows[id].key;
  }

  /** One bubble touches no row but its own. */
  lemma BubbleIsLocal(p: Pass, i: nat, reply: Reply, answer: Answer, now: int, key: string)
    requires Unique(p.rows)
    ensures var rows := Bubble(p, i, reply, answer, now).rows;
      Unique(rows) && (key != reply.key ==> (Handled(p.rows, key) <==> Handled(rows, key)))
  {
    var rows := Bubble(p, i, reply, answer, now).rows;
    FindSeesAll(p.rows, reply.key, |p.rows|);
    assert Extends(p.rows, rows);
    assert forall id | 0 <= id < |p.rows| && p.rows[id].key != reply.key :: rows[id] == p.rows[id];
  }

  /** A bubble that does not fail ends up handled, and asks the provider only if it was not. */
  lemma BubbleHandles(p: Pass, i: nat, reply: Reply, answer: Answer, now: int)
    requires Unique(p.rows)
    ensures var q := Bubble(p, i, reply, answer, now);
      && (!q.raised ==> Handled(q.rows, reply.key))
      && q.sent == (if Handled(p.rows, reply.key) then p.sent else p.sent + [i])
      && (q.raised <==> !Handled(p.rows, reply.key) && answer.Exception?)
  {
    var q := Bubble(p, i, reply, answer, now);
    var rows := Created(p.rows, reply);
    FindSeesAll(p.rows, reply.key, |p.rows|);
    var id := Find(rows, reply.key).value;
    if k :| 0 <= k < |p.rows| && p.rows[k].key == reply.key && Order(p.rows[k].status) > 0 {
      FindsTheRow(p.rows, k);
      assert Order(q.rows[k].status) > 0;
    } else {
      assert Order(rows[id].status) == 0;
      assert !q.raised ==> q.rows[id].key == reply.key && Order(q.rows[id].status) > 0;
    }
  }

  /** What one bubble leaves behind: its row, created for its message when missing, sent or failed
      as the provider answered if it was pending or failed, else as it was; no other row changes. */
  lemma BubbleWrites(p: Pass, i: nat, reply: Reply, answer: Answer, now: int) returns (id: nat)
    requires Unique(p.rows)
    ensures var rows := Bubble(p, i, reply, answer, now).rows;
      && id < |rows| && rows[id].key == reply.key && |rows| == (if id < |p.rows| then |p.rows| else |p.rows| + 1)
      && (forall k | 0 <= k < |p.rows| && k != id :: rows[k] == p.rows[k])
    ensures var before := if id < |p.rows| then p.rows[id] else NewRow(reply.key, reply.message);
      var after := Bubble(p, i, reply, answer, now).rows[id];
      if before.status == Pending || before.status == Failed then
        && after.key == before.key && after.message == before.message
        && after.deliveredAt == before.deliveredAt && after.readAt == before.readAt
        && after.status == (if answer.Exception? then Failed else Sent)
        && after.externalId == (if answer.Response? && answer.id.Some? then answer.id else before.externalId)
        && TimeKept(before.sentAt, after.sentAt, None, now, answer.Response?)
      else after == before
    ensures NewRow(reply.key, reply.message) == Row(reply.key, reply.message, Pending, None, None, None, None)
  {
    FindSeesAll(p.rows, reply.key, |p.rows|);
    var rows := Created(p.rows, reply);
    FindSeesAll(rows, reply.key, |rows|);
    id := Find(rows, reply.key).value;
  }

  ghost predicate AllHandled(replies: seq<Reply>, rows: seq<Row>, i: nat)
    requires i <= |replies|
  {
    forall j: nat | j < i :: Handled(rows, replies[j].key)
  }

  lemma BubbleHandlesOneMore(replies: seq<Reply>, p: Pass, i: nat, answer: Answer, now: int)
    requires i < |replies| && Unique(p.rows) && Distinct(replies) && AllHandled(replies, p.rows, i)
    ensures var q := Bubble(p, i, replies[i], answer, now);
      Unique(q.rows) && (!q.raised ==> AllHandled(replies, q.rows, i + 1))
  {
    var reply := replies[i];
    var q := Bubble(p, i, reply, answer, now);
    BubbleIsLocal(p, i, reply, answer, now, reply.key);
    BubbleHandles(p, i, reply, answer, now);
    forall j: nat | j < i ensures Handled(q.rows, replies[j].key) {
      BubbleIsLocal(p, i, reply, answer, now, replies[j].key);
    }
  }

  lemma {:induction false} PassHandles(replies: seq<Reply>, send: nat -> Answer, now: int, rows: seq<Row>, i: nat)
    requires i <= |replies| && Unique(rows) && Distinct(replies)
    ensures var p := PassTo(replies, send, now, rows, i);
      Unique(p.rows) && (!p.raised ==> AllHandled(replies, p.rows, i))
  {
    if i > 0 {
      PassHandles(replies, send, now, rows, i - 1);
      var p := PassTo(replies, send, now, rows, i - 1);
      if !p.raised { BubbleHandlesOneMore(replies, p, i - 1, send(i - 1), now); }
    }
  }

  /** Bubbles from `i` on are as they were. */
  lemma {:induction false} PassKeepsLater(replies: seq<Reply>, send: nat -> Answer, now: int, rows: seq<Row>,
        i: nat, j: nat)
    requires i <= j < |replies| && Unique(rows) && Distinct(replies)
    ensures Handled(PassTo(replies, send, now, rows, i).rows, replies[j].key) <==> Handled(rows, replies[j].key)
  {
    if i > 0 {
      PassKeepsLater(replies, send, now, rows, i - 1, j);
      PassHandles(replies, send, now, rows, i - 1);
      var p := PassTo(replies, send, now, rows, i - 1);
      if !p.raised { BubbleIsLocal(p, i - 1, replies[i - 1], send(i - 1), now, replies[j].key); }
    }
  }

  /** The bubbles below `i` that still had to be sent, in order. */
  ghost function Remaining(replies: seq<Reply>, rows: seq<Row>, i: nat): seq<nat>
    requires i <= |replies|
  {
    if i == 0 then []
    else Remaining(replies, rows, i - 1) + (if Handled(rows, replies[i - 1].key) then [] else [i - 1])
  }

  ghost predicate Refused(replies: seq<Reply>, send: nat -> Answer, rows: seq<Row>, k: nat) {
    k < |replies| && !Handled(rows, replies[k].key) && send(k).Exception?
  }

  /** What one bubble adds to a pass that has got through the ones before it. */
  ghost predicate Adds(replies: seq<Reply>, send: nat -> Answer, rows: seq<Row>, i: nat, p: Pass, q: Pass) {
    && i < |replies|
    && (if p.raised then q == p
       else && q.sent == p.sent + (if Handled(rows, replies[i].key) then [] else [i])
            && (q.raised <==> Refused(replies, send, rows, i)))
  }

  lemma NextBubble(replies: seq<Reply>, send: nat -> Answer, now: int, rows: seq<Row>, i: nat)
    requires i < |replies| && Unique(rows) && Distinct(replies)
    ensures Adds(replies, send, rows, i, PassTo(replies, send, now, rows, i), PassTo(replies, send, now, rows, i + 1))
  {
    PassHandles(replies, send, now, rows, i);
    PassKeepsLater(replies, send, now, rows, i, i);
    var p := PassTo(replies, send, now, rows, i);
    if !p.raised { BubbleHandles(p, i, replies[i], send(i), now); }
  }

  /** The states of a pass between its bubbles. */
  ghost predicate Stages(replies: seq<Reply>, send: nat -> Answer, rows: seq<Row>, ps: seq<Pass>) {
    && |ps| == |replies| + 1 && ps[0].sent == [] && !ps[0].raised
    && (forall i: nat {:trigger Staged(replies, send, rows, ps, i)} | i < |replies| ::
         Staged(replies, send, rows, ps, i))
  }

  ghost predicate Staged(replies: seq<Reply>, send: nat -> Answer, rows: seq<Row>, ps: seq<Pass>, i: nat) {
    i < |replies| < |ps| && Adds(replies, send, rows, i, ps[i], ps[i + 1])
  }

  lemma {:induction false} StagesStop(replies: seq<Reply>, send: nat -> Answer, rows: seq<Row>, ps: seq<Pass>, i: nat)
    requires i <= |replies| && Stages(replies, send, rows, ps)
    ensures ps[i].raised <==> exists k: nat :: k < i && Refused(replies, send, rows, k)
  {
    if i > 0 {
      StagesStop(replies, send, rows, ps, i - 1);
      assert Staged(replies, send, rows, ps, i - 1);
    }
  }

  ghost predicate SentOk(replies: seq<Reply>, send: nat -> Answer, rows: seq<Row>, p: Pass, i: nat) {
    && i <= |replies|
    && (if p.raised then p.sent != [] && p.sent <= Remaining(replies, rows, i) && send(p.sent[|p.sent| - 1]).Exception?
       else p.sent == Remaining(replies, rows, i))
  }

  lemma {:induction false} StagesSend(replies: seq<Reply>, send: nat -> Answer, rows: seq<Row>, ps: seq<Pass>, i: nat)
    requires i <= |replies| && Stages(replies, send, rows, ps)
    ensures SentOk(replies, send, rows, ps[i], i)
  {
    if i > 0 {
      StagesSend(replies, send, rows, ps, i - 1);
      assert Staged(replies, send, rows, ps, i - 1);
    }
  }

  lemma PassHasStages(replies: seq<Reply>, send: nat -> Answer, now: int, rows: seq<Row>) returns (ps: seq<Pass>)
    requires Unique(rows) && Distinct(replies)
    ensures Stages(replies, send, rows, ps) && ps[|replies|] == PassTo(replies, send, now, rows, |replies|)
  {
    ps := seq(|replies| + 1, i requires 0 <= i <= |replies| => PassTo(replies, send, now, rows, i));
    forall i: nat | i < |replies| ensures Staged(replies, send, rows, ps, i) {
      NextBubble(replies, send, now, rows, i);
    }
  }

  /** A pass stops exactly when the provider refuses a bubble that still had to be sent, and it
      sends exactly the bubbles that still had to be sent, in order, up to the refused one. */
  lemma PassSendsTheRemaining(replies: seq<Reply>, send: nat -> Answer, now: int, rows: seq<Row>)
    requires Unique(rows) && Distinct(replies)
    ensures var p := PassTo(replies, send, now, rows, |replies|);
      && (p.raised <==> exists k: nat :: k < |replies| && Refused(replies, send, rows, k))
      && SentOk(replies, send, rows, p, |replies|)
  {
    var ps := PassHasStages(replies, send, now, rows);
    StagesStop(replies, send, rows, ps, |replies|);
    StagesSend(replies, send, rows, ps, |replies|);
  }

  /** After a complete pass, running the turn again sends nothing and changes nothing. */
  lemma RerunSendsNothing(replies: seq<Reply>, send: nat -> Answer, send': nat -> Answer, now: int, now': int,
        rows: seq<Row>)
    requires Unique(rows) && Distinct(replies) && !PassTo(replies, send, now, rows, |replies|).raised
    ensures var after := PassTo(replies, send, now, rows, |replies|).rows;
      PassTo(replies, send', now', after, |replies|) == Pass(after, [], false)
  {
    PassHandles(replies, send, now, rows, |replies|);
    NothingLeft(replies, send', now', PassTo(replies, send, now, rows, |replies|).rows, |replies|);
  }

  lemma HandledIsSkipped(p: Pass, i: nat, reply: Reply, answer: Answer, now: int)
    requires Unique(p.rows) && Handled(p.rows, reply.key)
    ensures Bubble(p, i, reply, answer, now) == Pass(p.rows, p.sent, false)
  {
    var id :| 0 <= id < |p.rows| && p.rows[id].key == reply.key && Order(p.rows[id].status) > 0;
    FindsTheRow(p.rows, id);
  }

  lemma {:induction false} NothingLeft(replies: seq<Reply>, send: nat -> Answer, now: int, rows: seq<Row>, i: nat)
    requires i <= |replies| && Unique(rows) && AllHandled(replies, rows, i)
    ensures PassTo(replies, send, now, rows, i) == Pass(rows, [], false)
  {
    if i > 0 {
      NothingLeft(replies, send, now, rows, i - 1);
      HandledIsSkipped(Pass(rows, [], false), i - 1, replies[i - 1], send(i - 1), now);
    }
  }
}
