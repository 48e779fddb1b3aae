/**
 What the limiter's specification comes to: how many admitted checks of a client and of an
 identifier there may be (services/auth_rate_limit.py).
 */
module RateLimitRules {
  import opened RateLimiter

  /** The admitted checks of one client in the `window` seconds up to `now`. */
  function FromClient(log: seq<Check>, client: string, window: real, now: real): set<nat> {
    set i: nat | i < |log| && log[i].client == client && now - window < log[i].now <= now
  }

  function ForIdentifier(log: seq<Check>, identifier: string, window: real, now: real): set<nat> {
    set i: nat | i < |log| && log[i].identifier == identifier && now - window < log[i].now <= now
  }

  /** Which admitted checks a rule counts. */
  function Counted(log: seq<Check>, r: nat, subject: string, window: real, now: real): set<nat> {
    set i: nat | i < |log| && Subject(log[i], r) == subject && now - window < log[i].now <= now
  }

  lemma CountedMore(log: seq<Check>, e: Check, r: nat, subject: string, window: real, now: real)
    ensures |Counted(log + [e], r, subject, window, now)| == |Counted(log, r, subject, window, now)|
      + (if Subject(e, r) == subject && now - window < e.now <= now then 1 else 0)
  {
    var before, after := Counted(log, r, subject, window, now), Counted(log + [e], r, subject, window, now);
    assert |log| !in before;
    assert after == before + (if |log| in after then {|log|} else {});
  }

  lemma {:induction false} CountIsCardinality(log: seq<Check>, r: nat, subject: string, window: real, now: real)
    ensures CountIn(Times(log, r, subject), now - window, now) == |Counted(log, r, subject, window, now)|
  {
    if log != [] {
      var front, e := log[..|log| - 1], log[|log| - 1];
      CountIsCardinality(front, r, subject, window, now);
      assert log == front + [e];
      CountedMore(front, e, r, subject, window, now);
      CountSplits(Times(front, r, subject), if Subject(e, r) == subject then [e.now] else [], now - window, now);
    }
  }

  predicate Below(n: nat, limit: int) { n == 0 || n < limit }

  lemma MinuteRule(c: Config, log: seq<Check>, e: Check)
    ensures !Exceeds(c, log, e, 0) <==> Below(|FromClient(log, e.client, 60.0, e.now)|, c.ipPerMinute)
  {
    CountIsCardinality(log, 0, e.client, 60.0, e.now);
    assert Counted(log, 0, e.client, 60.0, e.now) == FromClient(log, e.client, 60.0, e.now);
  }

  lemma HourRule(c: Config, log: seq<Check>, e: Check)
    ensures !Exceeds(c, log, e, 1) <==> Below(|FromClient(log, e.client, 3600.0, e.now)|, c.ipPerHour)
  {
    CountIsCardinality(log, 1, e.client, 3600.0, e.now);
    assert Counted(log, 1, e.client, 3600.0, e.now) == FromClient(log, e.client, 3600.0, e.now);
  }

  lemma IdentifierRule(c: Config, log: seq<Check>, e: Check)
    ensures !Exceeds(c, log, e, 2) <==> Below(|ForIdentifier(log, e.identifier, 3600.0, e.now)|, c.identifierPerHour)
  {
    CountIsCardinality(log, 2, e.identifier, 3600.0, e.now);
    assert Counted(log, 2, e.identifier, 3600.0, e.now) == ForIdentifier(log, e.identifier, 3600.0, e.now);
  }

  /** Allowed means: fewer admitted checks of the client than its limits in the last minute and the
      last hour, and fewer of the identifier than its limit in the last hour; a limit below one
      counts as one. */
  lemma AllowedMeans(c: Config, log: seq<Check>, e: Check)
    ensures Allowed(c, log, e) <==>
      && Below(|FromClient(log, e.client, 60.0, e.now)|, c.ipPerMinute)
      && Below(|FromClient(log, e.client, 3600.0, e.now)|, c.ipPerHour)
      && Below(|ForIdentifier(log, e.identifier, 3600.0, e.now)|, c.identifierPerHour)
    ensures Logged(c, log, e) == if Allowed(c, log, e) then log + [e] else log
  {
    MinuteRule(c, log, e);
    HourRule(c, log, e);
    IdentifierRule(c, log, e);
    assert Allowed(c, log, e) <==> !Exceeds(c, log, e, 0) && !Exceeds(c, log, e, 1) && !Exceeds(c, log, e, 2);
  }
}
