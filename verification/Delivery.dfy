/**
 The delivery row of one outbound message (services/channels.py, agents/channel_delivery.py).
 Provider webhooks and the sender write it in any order and any number of times.
 */
module Delivery {
  import opened Options

  datatype Status = Pending | Failed | Sent | Delivered | Read

  datatype Row = Row(
    key: string,
    message: nat,
    status: Status,
    externalId: Option<string>,
    sentAt: Option<int>,
    deliveredAt: Option<int>,
    readAt: Option<int>)

  datatype Event = SentEvent | DeliveredEvent | ReadEvent | FailedEvent | OtherEvent

  /** Everything that writes a delivery row after its creation. */
  datatype Action =
    | Webhook(event: Event, externalId: Option<string>, at: Option<int>, now: int)
    | MarkSent(response: Option<string>, now: int)
    | MarkFailed

  function NewRow(key: string, message: nat): Row {
    Row(key, message, Pending, None, None, None, None)
  }

  function Order(s: Status): nat {
    match s
    case Pending => 0
    case Failed => 0
    case Sent => 1
    case Delivered => 2
    case Read => 3
  }

  function Advanced(s: Status, target: Status): Status {
    if Order(s) <= Order(target) then target else s
  }

  function FirstOf(x: Option<int>, y: Option<int>, now: int): Option<int> {
    if x.Some? then x else if y.Some? then y else Some(now)
  }

  predicate Arrived(s: Status) { s == Delivered || s == Read }

  predicate NeedsSend(s: Status, retryFailed: bool) { s == Pending || (retryFailed && s == Failed) }

  function Applied(r: Row, a: Action): Row {
    match a
    case Webhook(event, externalId, at, now) =>
      Notified(r.(externalId := if r.externalId.None? then externalId else r.externalId), event, at, now)
    case MarkSent(response, now) =>
      r.(externalId := if response.Some? then response else r.externalId,
         status := if NeedsSend(r.status, true) then Sent else r.status,
         sentAt := FirstOf(r.sentAt, None, now))
    case MarkFailed => r.(status := if Arrived(r.status) then r.status else Failed)
  }

  function Notified(r: Row, event: Event, at: Option<int>, now: int): Row {
    match event
    case SentEvent => r.(status := Advanced(r.status, Sent), sentAt := FirstOf(r.sentAt, at, now))
    case DeliveredEvent => r.(status := Advanced(r.status, Delivered), deliveredAt := FirstOf(r.deliveredAt, at, now))
    case ReadEvent => r.(status := Advanced(r.status, Read), readAt := FirstOf(r.readAt, at, now))
    case FailedEvent => r.(status := if Arrived(r.status) then r.status else Failed)
    case OtherEvent => r
  }

  function Run(r: Row, actions: seq<Action>): Row {
    if actions == [] then r else Applied(Run(r, actions[..|actions| - 1]), actions[|actions| - 1])
  }

  // ---------------------------------------------------------------- what one write does

  /** The first of what is stored, what was reported and, if a time is wanted at all, now. */
  predicate TimeKept(before: Option<int>, after: Option<int>, reported: Option<int>, now: int, wanted: bool) {
    if before.Some? || !wanted then after == before
    else if reported.Some? then after == reported
    else after == Some(now)
  }

  /** A webhook gives the row the provider's id if it has none, moves the status up to what the
      event reports and notes the time of that stage; a failure report counts only as long as the
      message is not known delivered or read, and other events change nothing else. */
  lemma WebhookWrites(r: Row, event: Event, externalId: Option<string>, at: Option<int>, now: int)
    ensures var t := Applied(r, Webhook(event, externalId, at, now));
      && t.key == r.key && t.message == r.message
      && t.externalId == (if r.externalId.None? then externalId else r.externalId)
      && TimeKept(r.sentAt, t.sentAt, at, now, event == SentEvent)
      && TimeKept(r.deliveredAt, t.deliveredAt, at, now, event == DeliveredEvent)
      && TimeKept(r.readAt, t.readAt, at, now, event == ReadEvent)
      && t.status == (
           match event
           case SentEvent => if r.status == Delivered || r.status == Read then r.status else Sent
           case DeliveredEvent => if r.status == Read then Read else Delivered
           case ReadEvent => Read
           case FailedEvent => if r.status == Delivered || r.status == Read then r.status else Failed
           case OtherEvent => r.status)
  {
  }

  /** The sender notes its success on the row, with the provider's newest id and the first time,
      and its failure unless the message is known delivered or read. */
  lemma SenderWrites(r: Row, response: Option<string>, now: int)
    ensures var t := Applied(r, MarkSent(response, now));
      && t.key == r.key && t.message == r.message && t.deliveredAt == r.deliveredAt && t.readAt == r.readAt
      && t.externalId == (if response.Some? then response else r.externalId)
      && TimeKept(r.sentAt, t.sentAt, None, now, true)
      && t.status == (if r.status == Pending || r.status == Failed then Sent else r.status)
    ensures Applied(r, MarkFailed) ==
      r.(status := if r.status == Delivered || r.status == Read then r.status else Failed)
  {
  }

  // ---------------------------------------------------------------- what a run ends in

  /** What an action reports about the message, if anything. */
  function Claim(a: Action): Option<Status> {
    match a
    case Webhook(event, _, _, _) => (
      match event
      case SentEvent => Some(Sent)
      case DeliveredEvent => Some(Delivered)
      case ReadEvent => Some(Read)
      case FailedEvent => Some(Failed)
      case OtherEvent => None)
    case MarkSent(_, _) => Some(Sent)
    case MarkFailed => Some(Failed)
  }

  predicate Claims(actions: seq<Action>, s: Status) {
    exists i :: 0 <= i < |actions| && Claim(actions[i]) == Some(s)
  }

  /** The last claim made, or `s` when there is none. */
  function LastClaim(s: Status, actions: seq<Action>): Status {
    if actions == [] then s
    else
      var last := Claim(actions[|actions| - 1]);
      if last.Some? then last.value else LastClaim(s, actions[..|actions| - 1])
  }

  predicate Settled(s: Status, actions: seq<Action>) {
    Arrived(s) || Claims(actions, Delivered) || Claims(actions, Read)
  }

  /** The final status in closed form: the highest of delivered and read if there is any,
      otherwise simply the last claim. */
  lemma {:induction false} FinalStatus(r: Row, actions: seq<Action>)
    ensures var s := Run(r, actions).status;
      && (s == Read <==> r.status == Read || Claims(actions, Read))
      && (Arrived(s) <==> Settled(r.status, actions))
      && (!Settled(r.status, actions) ==> s == LastClaim(r.status, actions))
  {
    if actions == [] {
    } else {
      var init, last := actions[..|actions| - 1], actions[|actions| - 1];
      FinalStatus(r, init);
      ClaimsMore(init, last, Read);
      ClaimsMore(init, last, Delivered);
      assert actions == init + [last];
    }
  }

  lemma ClaimsMore(init: seq<Action>, last: Action, s: Status)
    ensures Claims(init + [last], s) <==> Claims(init, s) || Claim(last) == Some(s)
  {
    var all := init + [last];
    assert all[|init|] == last;
    if i :| 0 <= i < |init| && Claim(init[i]) == Some(s) { assert all[i] == init[i]; }
  }

  /** The first time reported for sent, delivered and read is kept for good. */
  lemma {:induction false} TimesStick(r: Row, actions: seq<Action>)
    ensures var t := Run(r, actions);
      && (r.sentAt.Some? ==> t.sentAt == r.sentAt) && (r.deliveredAt.Some? ==> t.deliveredAt == r.deliveredAt)
      && (r.readAt.Some? ==> t.readAt == r.readAt) && t.key == r.key && t.message == r.message
  {
    if actions != [] { TimesStick(r, actions[..|actions| - 1]); }
  }

  /** A status says no more than was reported: each is backed by its own timestamp. */
  ghost predicate Backed(r: Row) {
    && (r.status == Sent ==> r.sentAt.Some?)
    && (r.status == Delivered ==> r.deliveredAt.Some?)
    && (r.status == Read <==> r.readAt.Some?)
  }

  lemma {:induction false} RunsAreBacked(r: Row, actions: seq<Action>)
    requires Backed(r)
    ensures Backed(Run(r, actions))
  {
    if actions != [] { RunsAreBacked(r, actions[..|actions| - 1]); }
  }

  // ---------------------------------------------------------------- does the order matter?

  lemma SameClaims(a: seq<Action>, b: seq<Action>, s: Status)
    requires multiset(a) == multiset(b)
    ensures Claims(a, s) <==> Claims(b, s)
  {
    if i :| 0 <= i < |a| && Claim(a[i]) == Some(s) {
      assert a[i] in multiset(b);
      var j :| 0 <= j < |b| && b[j] == a[i];
    }
    if i :| 0 <= i < |b| && Claim(b[i]) == Some(s) {
      assert b[i] in multiset(a);
      var j :| 0 <= j < |a| && a[j] == b[i];
    }
  }

  lemma {:induction false} LastClaimIsAClaim(s: Status, a: seq<Action>)
    ensures Claims(a, LastClaim(s, a)) || (LastClaim(s, a) == s && forall i | 0 <= i < |a| :: Claim(a[i]).None?)
  {
    if a != [] {
      LastClaimIsAClaim(s, a[..|a| - 1]);
      ClaimsMore(a[..|a| - 1], a[|a| - 1], LastClaim(s, a));
      assert a == a[..|a| - 1] + [a[|a| - 1]];
    }
  }

  /** Once a delivered or read report is among them, any order of the same reports ends alike. */
  lemma Confluent(r: Row, a: seq<Action>, b: seq<Action>)
    requires multiset(a) == multiset(b) && Settled(r.status, a)
    ensures Run(r, a).status == Run(r, b).status
  {
    FinalStatus(r, a);
    FinalStatus(r, b);
    SameClaims(a, b, Read);
    SameClaims(a, b, Delivered);
  }

  predicate Contradicting(s: Status, a: seq<Action>) {
    !Settled(s, a) && Claims(a, Sent) && Claims(a, Failed)
  }

  ghost predicate OrderMatters(r: Row, a: seq<Action>) {
    exists b: seq<Action> :: multiset(b) == multiset(a) && Run(r, b).status != Run(r, a).status
  }

  /** Exactly when the order of the reports decides: a send success and a failure are both
      reported and neither delivery nor reading ever is. */
  lemma OrderMattersExactly(r: Row, a: seq<Action>)
    ensures OrderMatters(r, a) <==> Contradicting(r.status, a)
  {
    if Contradicting(r.status, a) {
      var i :| 0 <= i < |a| && Claim(a[i]) == Some(Sent);
      var j :| 0 <= j < |a| && Claim(a[j]) == Some(Failed);
      MovedLast(r, a, i);
      MovedLast(r, a, j);
      if Run(r, a).status == Sent {
        assert Run(r, ToEnd(a, j)).status != Run(r, a).status;
      } else {
        assert Run(r, ToEnd(a, i)).status != Run(r, a).status;
      }
    } else if OrderMatters(r, a) {
      var b: seq<Action> :| multiset(b) == multiset(a) && Run(r, b).status != Run(r, a).status;
      Agree(r, a, b);
    }
  }

  function ToEnd(a: seq<Action>, i: nat): (b: seq<Action>)
    requires i < |a|
  {
    a[..i] + a[i + 1..] + [a[i]]
  }

  lemma MovedLast(r: Row, a: seq<Action>, i: nat)
    requires i < |a| && !Settled(r.status, a) && Claim(a[i]).Some?
    ensures multiset(ToEnd(a, i)) == multiset(a)
    ensures Run(r, ToEnd(a, i)).status == Claim(a[i]).value
  {
    assert a == a[..i] + [a[i]] + a[i + 1..];
    var b := ToEnd(a, i);
    SameClaims(a, b, Read);
    SameClaims(a, b, Delivered);
    FinalStatus(r, b);
  }

  lemma Agree(r: Row, a: seq<Action>, b: seq<Action>)
    requires multiset(b) == multiset(a) && !Contradicting(r.status, a)
    ensures Run(r, b).status == Run(r, a).status
  {
    FinalStatus(r, a);
    FinalStatus(r, b);
    SameClaims(a, b, Read);
    SameClaims(a, b, Delivered);
    if !Settled(r.status, a) {
      LastClaimIsAClaim(r.status, a);
      LastClaimIsAClaim(r.status, b);
      SameClaims(a, b, LastClaim(r.status, a));
      SameClaims(a, b, LastClaim(r.status, b));
    }
  }

  // ---------------------------------------------------------------- keys of one turn

  function Decimal(n: nat): string {
    if n < 10 then [Digit(n)] else Decimal(n / 10) + [Digit(n % 10)]
  }

  function Digit(n: nat): char
    requires n < 10
  {
    ('0' as int + n) as char
  }

  function DeliveryKey(base: string, ordinal: nat): string {
    if ordinal == 0 then base else base + ":" + Decimal(ordinal)
  }

  lemma {:induction false} DecimalInjective(m: nat, n: nat)
    requires Decimal(m) == Decimal(n)
    ensures m == n
  {
    var a, b := Decimal(m), Decimal(n);
    assert a[|a| - 1] == Digit(m % 10) && b[|b| - 1] == Digit(n % 10);
    if m >= 10 && n >= 10 {
      assert a[..|a| - 1] == Decimal(m / 10) && b[..|b| - 1] == Decimal(n / 10);
      DecimalInjective(m / 10, n / 10);
    }
  }

  /** Different bubbles of a turn never share a key. */
  lemma KeysDiffer(base: string, i: nat, j: nat)
    requires DeliveryKey(base, i) == DeliveryKey(base, j)
    ensures i == j
  {
    var a, b := DeliveryKey(base, i), DeliveryKey(base, j);
    if i != 0 && j != 0 {
      assert a[|base| + 1..] == Decimal(i) && b[|base| + 1..] == Decimal(j);
      DecimalInjective(i, j);
    } else {
      assert i != 0 ==> |a| > |base|;
      assert j != 0 ==> |b| > |base|;
    }
  }
}
