/**
 The sliding-window limiter of the auth discovery endpoint (services/auth_rate_limit.py),
 refined to a specification that counts over the full log of admitted checks.
 */
module RateLimiter {
  import opened Options

  datatype Rule = Rule(namespace: string, limit: nat, window: real)

  datatype Config = Config(ipPerMinute: int, ipPerHour: int, identifierPerHour: int)

  /** The subjects are digests of the client address and of the identifier. */
  datatype Check = Check(now: real, client: string, identifier: string)

  function AtLeastOne(n: int): nat { if n < 1 then 1 else n }

  function Rules(c: Config): seq<Rule> {
    [Rule("ip-minute", AtLeastOne(c.ipPerMinute), 60.0),
     Rule("ip-hour", AtLeastOne(c.ipPerHour), 3600.0),
     Rule("identifier-hour", AtLeastOne(c.identifierPerHour), 3600.0)]
  }

  function Subject(e: Check, r: nat): string { if r < 2 then e.client else e.identifier }

  function Scoped(c: Config, r: nat, subject: string): string
    requires r < 3
  {
    Rules(c)[r].namespace + ":" + subject
  }

  lemma ScopesAreSeparate(c: Config, r: nat, s: string, r': nat, s': string)
    requires r < 3 && r' < 3 && Scoped(c, r, s) == Scoped(c, r', s')
    ensures r == r' && s == s'
  {
    var k, k' := Scoped(c, r, s), Scoped(c, r', s');
    assert k[1] == Rules(c)[r].namespace[1] && k[3] == Rules(c)[r].namespace[3];
    assert k'[1] == Rules(c)[r'].namespace[1] && k'[3] == Rules(c)[r'].namespace[3];
    assert k[|Rules(c)[r].namespace| + 1..] == s && k'[|Rules(c)[r'].namespace| + 1..] == s';
  }

  // ---------------------------------------------------------------- the specification: a log

  /** When checks of this subject were admitted, oldest first. */
  function Times(log: seq<Check>, r: nat, subject: string): seq<real> {
    if log == [] then []
    else
      var e := log[|log| - 1];
      Times(log[..|log| - 1], r, subject) + (if Subject(e, r) == subject then [e.now] else [])
  }

  function CountIn(times: seq<real>, from: real, to: real): nat {
    if times == [] then 0
    else
      var t := times[|times| - 1];
      CountIn(times[..|times| - 1], from, to) + (if from < t <= to then 1 else 0)
  }

  /** How many checks of this subject were admitted in the window that ends at `now`. */
  function Used(c: Config, log: seq<Check>, r: nat, subject: string, now: real): nat
    requires r < 3
  {
    CountIn(Times(log, r, subject), now - Rules(c)[r].window, now)
  }

  predicate Exceeds(c: Config, log: seq<Check>, e: Check, r: nat) {
    r < 3 && Used(c, log, r, Subject(e, r), e.now) >= Rules(c)[r].limit
  }

  predicate Allowed(c: Config, log: seq<Check>, e: Check) {
    forall r: nat | r < 3 :: !Exceeds(c, log, e, r)
  }

  function Logged(c: Config, log: seq<Check>, e: Check): seq<Check> {
    if Allowed(c, log, e) then log + [e] else log
  }

  function Admitted(c: Config, checks: seq<Check>): seq<Check> {
    if checks == [] then [] else Logged(c, Admitted(c, checks[..|checks| - 1]), checks[|checks| - 1])
  }

  ghost predicate Ordered(checks: seq<Check>) {
    forall i, j | 0 <= i < j < |checks| :: checks[i].now <= checks[j].now
  }

  ghost predicate Sorted(times: seq<real>) {
    forall i, j | 0 <= i < j < |times| :: times[i] <= times[j]
  }

  ghost predicate AtMost(times: seq<real>, bound: real) {
    forall i | 0 <= i < |times| :: times[i] <= bound
  }

  lemma {:induction false} TimesAreSorted(log: seq<Check>, r: nat, subject: string, bound: real)
    requires Ordered(log) && (log == [] || log[|log| - 1].now <= bound)
    ensures Sorted(Times(log, r, subject)) && AtMost(Times(log, r, subject), bound)
  {
    if log != [] {
      TimesAreSorted(log[..|log| - 1], r, subject, log[|log| - 1].now);
    }
  }

  // ---------------------------------------------------------------- counting

  lemma {:induction false} CountSplits(a: seq<real>, b: seq<real>, from: real, to: real)
    ensures CountIn(a + b, from, to) == CountIn(a, from, to) + CountIn(b, from, to)
  {
    if b == [] {
      assert a + b == a;
    } else {
      assert (a + b)[..|a + b| - 1] == a + b[..|b| - 1];
      CountSplits(a, b[..|b| - 1], from, to);
    }
  }

  lemma {:induction false} CountNone(times: seq<real>, from: real, to: real)
    requires AtMost(times, from)
    ensures CountIn(times, from, to) == 0
  {
    if times != [] { CountNone(times[..|times| - 1], from, to); }
  }

  lemma {:induction false} CountAll(times: seq<real>, from: real, to: real)
    requires forall i | 0 <= i < |times| :: from < times[i] <= to
    ensures CountIn(times, from, to) == |times|
  {
    if times != [] { CountAll(times[..|times| - 1], from, to); }
  }

  lemma {:induction false} CountShrinks(times: seq<real>, from: real, to: real, from': real, to': real)
    requires from <= from' && (to' <= to || AtMost(times, to))
    ensures CountIn(times, from', to') <= CountIn(times, from, to) <= |times|
  {
    if times != [] { CountShrinks(times[..|times| - 1], from, to, from', to'); }
  }

  // ---------------------------------------------------------------- no window overflows

  lemma UsedGrows(c: Config, log: seq<Check>, e: Check, r: nat, subject: string, end: real)
    requires r < 3
    ensures Used(c, log + [e], r, subject, end) == Used(c, log, r, subject, end) +
              (if Subject(e, r) == subject && end - Rules(c)[r].window < e.now <= end then 1 else 0)
  {
    assert (log + [e])[..|log + [e]| - 1] == log;
    var times, more := Times(log, r, subject), if Subject(e, r) == subject then [e.now] else [];
    assert Times(log + [e], r, subject) == times + more;
    CountSplits(times, more, end - Rules(c)[r].window, end);
  }

  /** A window that contains the newest moment holds no more than the one ending there. */
  lemma NewestWindowIsFullest(c: Config, log: seq<Check>, r: nat, subject: string, now: real, end: real)
    requires r < 3 && Ordered(log) && (log == [] || log[|log| - 1].now <= now) && now <= end
    ensures Used(c, log, r, subject, end) <= Used(c, log, r, subject, now)
  {
    TimesAreSorted(log, r, subject, now);
    CountShrinks(Times(log, r, subject), now - Rules(c)[r].window, now, end - Rules(c)[r].window, end);
  }

  /** In every run under a monotone clock, no window of a rule's length, wherever it ends, ever
      holds more admitted checks of a subject than the rule's limit. */
  lemma {:induction false} NoWindowOverflows(c: Config, checks: seq<Check>, r: nat, subject: string, end: real)
    requires Ordered(checks) && r < 3
    ensures Used(c, Admitted(c, checks), r, subject, end) <= Rules(c)[r].limit
  {
    if checks == [] {
    } else {
      var init, e := checks[..|checks| - 1], checks[|checks| - 1];
      var log := Admitted(c, init);
      NoWindowOverflows(c, init, r, subject, end);
      if Allowed(c, log, e) {
        UsedGrows(c, log, e, r, subject, end);
        AdmittedIsOrdered(c, init, e.now);
        assert !Exceeds(c, log, e, r);
        if Subject(e, r) == subject && e.now <= end { NewestWindowIsFullest(c, log, r, subject, e.now, end); }
      }
    }
  }

  lemma {:induction false} AdmittedIsOrdered(c: Config, checks: seq<Check>, bound: real)
    requires Ordered(checks) && (checks == [] || checks[|checks| - 1].now <= bound)
    ensures var log := Admitted(c, checks); Ordered(log) && forall i | 0 <= i < |log| :: log[i].now <= bound
  {
    if checks != [] { AdmittedIsOrdered(c, checks[..|checks| - 1], checks[|checks| - 1].now); }
  }

  // ---------------------------------------------------------------- how long to wait

  function Ceil(x: real): int {
    if x.Floor as real == x then x.Floor else x.Floor + 1
  }

  /** The oldest admitted check still inside the window. */
  function OldestIn(times: seq<real>, from: real): Option<real> {
    if times == [] then None
    else if times[0] > from then Some(times[0])
    else OldestIn(times[1..], from)
  }

  function RetryAfter(window: real, now: real, oldest: real): int {
    var wait := Ceil(window - (now - oldest));
    if wait < 1 then 1 else wait
  }

  /** The wait is the least whole number of seconds, at least one, after which the rule admits
      when nothing else is admitted for the subject: shorter waits are refused again. */
  lemma RetryAfterIsExact(live: seq<real>, limit: nat, window: real, now: real, seconds: int)
    requires Sorted(live) && |live| == limit > 0 && window > 0.0
    requires forall i | 0 <= i < |live| :: now - window < live[i] <= now
    requires seconds >= 1
    ensures var later := now + seconds as real;
      CountIn(live, later - window, later) < limit <==> seconds >= RetryAfter(window, now, live[0])
  {
    var later := now + seconds as real;
    if seconds >= RetryAfter(window, now, live[0]) {
      assert live[0] <= later - window;
      assert live == [live[0]] + live[1..];
      CountSplits([live[0]], live[1..], later - window, later);
      CountShrinks(live[1..], later - window, later, later - window, later);
    } else {
      assert live[0] > later - window;
      CountAll(live, later - window, later);
    }
  }

  // ---------------------------------------------------------------- the deques

  /** The deque holds a subject's admitted times except some that left the window by `cutoff`. */
  ghost predicate Suffix(deque: seq<real>, times: seq<real>, cutoff: real) {
    exists d :: Dropped(deque, times, d, cutoff)
  }

  ghost predicate Dropped(deque: seq<real>, times: seq<real>, d: int, cutoff: real) {
    0 <= d <= |times| && deque == times[d..] && AtMost(times[..d], cutoff)
  }

  lemma SuffixAges(deque: seq<real>, times: seq<real>, cutoff: real, cutoff': real)
    requires Suffix(deque, times, cutoff) && cutoff <= cutoff'
    ensures Suffix(deque, times, cutoff')
  {
    var d :| Dropped(deque, times, d, cutoff);
    assert Dropped(deque, times, d, cutoff');
  }

  lemma SuffixPops(deque: seq<real>, times: seq<real>, cutoff: real)
    requires Suffix(deque, times, cutoff) && deque != [] && deque[0] <= cutoff
    ensures Suffix(deque[1..], times, cutoff)
  {
    var d :| Dropped(deque, times, d, cutoff);
    assert times[..d + 1] == times[..d] + [times[d]];
    assert Dropped(deque[1..], times, d + 1, cutoff);
  }

  lemma SuffixGrows(deque: seq<real>, times: seq<real>, cutoff: real, t: real)
    requires Suffix(deque, times, cutoff)
    ensures Suffix(deque + [t], times + [t], cutoff)
  {
    var d :| Dropped(deque, times, d, cutoff);
    assert (times + [t])[..d] == times[..d];
    assert (times + [t])[d..] == times[d..] + [t];
    assert Dropped(deque + [t], times + [t], d, cutoff);
  }

  /** Only the deque matters for a window that starts no earlier than it was pruned to. */
  lemma DequeCounts(deque: seq<real>, times: seq<real>, cutoff: real, from: real, to: real)
    requires Suffix(deque, times, cutoff) && cutoff <= from
    ensures CountIn(times, from, to) == CountIn(deque, from, to)
  {
    var d :| Dropped(deque, times, d, cutoff);
    assert times == times[..d] + times[d..];
    CountSplits(times[..d], times[d..], from, to);
    CountNone(times[..d], from, to);
  }

  /** A pruned deque is exactly the window: its length is the count over the full log. */
  lemma PrunedIsTheWindow(deque: seq<real>, times: seq<real>, from: real, now: real)
    requires Suffix(deque, times, from) && Sorted(times) && AtMost(times, now) && (deque == [] || deque[0] > from)
    ensures Sorted(deque) && (forall i | 0 <= i < |deque| :: from < deque[i] <= now)
    ensures CountIn(times, from, now) == |deque|
  {
    DequeCounts(deque, times, from, from, now);
    CountAll(deque, from, now);
  }

  // ---------------------------------------------------------------- the table of deques

  type Events = map<string, seq<real>>

  function DequeOf(events: Events, key: string): seq<real> {
    if key in events then events[key] else []
  }

  /** The deque is the unpruned part of its subject's admitted times, no longer than the limit. */
  ghost predicate DequeOk(c: Config, events: Events, log: seq<Check>, clock: real, r: nat, subject: string) {
    && r < 3
    && (var deque := DequeOf(events, Scoped(c, r, subject));
       Suffix(deque, Times(log, r, subject), clock - Rules(c)[r].window) && |deque| <= Rules(c)[r].limit)
  }

  ghost predicate Represents(c: Config, events: Events, log: seq<Check>, clock: real) {
    && Ordered(log) && (log == [] || log[|log| - 1].now <= clock)
    && (forall r: nat, subject: string {:trigger DequeOk(c, events, log, clock, r, subject)} | r < 3 ::
          DequeOk(c, events, log, clock, r, subject))
  }

  lemma EmptyRepresents(c: Config, clock: real)
    ensures Represents(c, map[], [], clock)
  {
    forall r: nat, subject: string | r < 3 ensures DequeOk(c, map[], [], clock, r, subject) {
      assert Dropped([], Times([], r, subject), 0, clock - Rules(c)[r].window);
    }
  }

  lemma TimePasses(c: Config, events: Events, log: seq<Check>, clock: real, now: real)
    requires Represents(c, events, log, clock) && clock <= now
    ensures Represents(c, events, log, now)
  {
    forall r: nat, subject: string | r < 3 ensures DequeOk(c, events, log, now, r, subject) {
      assert DequeOk(c, events, log, clock, r, subject);
      SuffixAges(DequeOf(events, Scoped(c, r, subject)), Times(log, r, subject), clock - Rules(c)[r].window,
        now - Rules(c)[r].window);
    }
  }

  lemma PruningKeeps(c: Config, events: Events, log: seq<Check>, clock: real, r: nat, subject: string, deque: seq<real>)
    requires Represents(c, events, log, clock) && r < 3
    requires DequeOk(c, map[Scoped(c, r, subject) := deque], log, clock, r, subject)
    ensures Represents(c, events[Scoped(c, r, subject) := deque], log, clock)
  {
    var key := Scoped(c, r, subject);
    var pruned := events[key := deque];
    forall k: nat, s: string | k < 3 ensures DequeOk(c, pruned, log, clock, k, s) {
      assert DequeOk(c, events, log, clock, k, s);
      if Scoped(c, k, s) == key { ScopesAreSeparate(c, k, s, r, subject); }
    }
  }

  /** The table after the admitted check was appended under the first `r` rules. */
  function Appended(c: Config, events: Events, e: Check, r: nat): Events
    requires r <= 3
  {
    if r == 0 then events
    else
      var before, key := Appended(c, events, e, r - 1), Scoped(c, r - 1, Subject(e, r - 1));
      before[key := DequeOf(before, key) + [e.now]]
  }

  lemma {:induction false} AppendedDeque(c: Config, events: Events, e: Check, r: nat, k: nat, s: string)
    requires r <= 3 && k < 3
    ensures DequeOf(Appended(c, events, e, r), Scoped(c, k, s)) ==
              DequeOf(events, Scoped(c, k, s)) + (if k < r && s == Subject(e, k) then [e.now] else [])
  {
    if r > 0 {
      AppendedDeque(c, events, e, r - 1, k, s);
      if Scoped(c, k, s) == Scoped(c, r - 1, Subject(e, r - 1)) {
        ScopesAreSeparate(c, k, s, r - 1, Subject(e, r - 1));
      }
    }
  }

  lemma AppendedDequeOk(c: Config, events: Events, log: seq<Check>, e: Check, k: nat, s: string)
    requires k < 3 && DequeOk(c, events, log, e.now, k, s)
    requires |DequeOf(events, Scoped(c, k, Subject(e, k)))| < Rules(c)[k].limit
    ensures DequeOk(c, Appended(c, events, e, 3), log + [e], e.now, k, s)
  {
    var deque := DequeOf(events, Scoped(c, k, s));
    AppendedDeque(c, events, e, 3, k, s);
    if s == Subject(e, k) {
      SuffixGrows(deque, Times(log, k, s), e.now - Rules(c)[k].window, e.now);
    } else {
      assert deque + [] == deque && Times(log, k, s) + [] == Times(log, k, s);
    }
  }

  lemma AppendingKeeps(c: Config, events: Events, log: seq<Check>, e: Check)
    requires Represents(c, events, log, e.now)
    requires forall r: nat | r < 3 :: |DequeOf(events, Scoped(c, r, Subject(e, r)))| < Rules(c)[r].limit
    ensures Represents(c, Appended(c, events, e, 3), log + [e], e.now)
  {
    var appended, log' := Appended(c, events, e, 3), log + [e];
    forall k: nat, s: string | k < 3 ensures DequeOk(c, appended, log', e.now, k, s) {
      assert DequeOk(c, events, log, e.now, k, s);
      AppendedDequeOk(c, events, log, e, k, s);
    }
  }

  predicate Pruned(c: Config, events: Events, e: Check, r: nat) {
    && r < 3
    && (var deque := DequeOf(events, Scoped(c, r, Subject(e, r)));
       deque == [] || deque[0] > e.now - Rules(c)[r].window)
  }

  /** After pruning, the deque's length is the count over the full log. */
  lemma LengthCounts(c: Config, events: Events, log: seq<Check>, e: Check, r: nat)
    requires Represents(c, events, log, e.now) && r < 3 && Pruned(c, events, e, r)
    ensures |DequeOf(events, Scoped(c, r, Subject(e, r)))| == Used(c, log, r, Subject(e, r), e.now)
  {
    assert DequeOk(c, events, log, e.now, r, Subject(e, r));
    TimesAreSorted(log, r, Subject(e, r), e.now);
    PrunedIsTheWindow(DequeOf(events, Scoped(c, r, Subject(e, r))), Times(log, r, Subject(e, r)),
      e.now - Rules(c)[r].window, e.now);
  }

  /** If nothing else is admitted for the subject, the rule admits it again after `seconds`. */
  predicate Frees(c: Config, log: seq<Check>, e: Check, r: nat, seconds: int)
    requires r < 3
  {
    Used(c, log, r, Subject(e, r), e.now + seconds as real) < Rules(c)[r].limit
  }

  ghost predicate WaitIsExact(c: Config, log: seq<Check>, e: Check, r: nat, wait: int) {
    && r < 3
    && (wait >= 1 && forall seconds: int {:trigger Frees(c, log, e, r, seconds)} | seconds >= 1 ::
         Frees(c, log, e, r, seconds) <==> seconds >= wait)
  }

  lemma BlockedFrees(c: Config, log: seq<Check>, e: Check, r: nat, deque: seq<real>, seconds: int)
    requires r < 3 && seconds >= 1 && |deque| == Rules(c)[r].limit && Sorted(deque)
    requires Suffix(deque, Times(log, r, Subject(e, r)), e.now - Rules(c)[r].window)
    requires forall i | 0 <= i < |deque| :: e.now - Rules(c)[r].window < deque[i] <= e.now
    ensures Frees(c, log, e, r, seconds) <==> seconds >= RetryAfter(Rules(c)[r].window, e.now, deque[0])
  {
    var later, window := e.now + seconds as real, Rules(c)[r].window;
    DequeCounts(deque, Times(log, r, Subject(e, r)), e.now - window, later - window, later);
    RetryAfterIsExact(deque, Rules(c)[r].limit, window, e.now, seconds);
  }

  lemma BlockedWaits(c: Config, events: Events, log: seq<Check>, e: Check, r: nat)
    requires Represents(c, events, log, e.now) && r < 3 && Pruned(c, events, e, r)
    requires |DequeOf(events, Scoped(c, r, Subject(e, r)))| >= Rules(c)[r].limit
    ensures WaitIsExact(c, log, e, r,
      RetryAfter(Rules(c)[r].window, e.now, DequeOf(events, Scoped(c, r, Subject(e, r)))[0]))
  {
    var deque, times, window := DequeOf(events, Scoped(c, r, Subject(e, r))), Times(log, r, Subject(e, r)),
      Rules(c)[r].window;
    assert DequeOk(c, events, log, e.now, r, Subject(e, r));
    TimesAreSorted(log, r, Subject(e, r), e.now);
    PrunedIsTheWindow(deque, times, e.now - window, e.now);
    var wait := RetryAfter(window, e.now, deque[0]);
    forall seconds: int | seconds >= 1 ensures Frees(c, log, e, r, seconds) <==> seconds >= wait {
      BlockedFrees(c, log, e, r, deque, seconds);
    }
  }

  // ---------------------------------------------------------------- the limiter itself

  class AuthEligibilityRateLimiter {
    const config: Config
    var events: Events
    ghost var log: seq<Check>
    ghost var clock: real

    ghost predicate Valid()
      reads this
    {
      Represents(config, events, log, clock)
    }

    constructor (config: Config, ghost start: real)
      ensures Valid() && log == [] && this.config == config && clock == start
    {
      this.config, events, log, clock := config, map[], [], start;
      EmptyRepresents(config, start);
    }

    /** Drops what has left the window of one rule from the subject's deque. */
    method Prune(e: Check, r: nat)
      requires Represents(config, events, log, e.now) && r < 3
      modifies this`events
      ensures Represents(config, events, log, e.now) && Pruned(config, events, e, r)
      ensures forall k: string | k != Scoped(config, r, Subject(e, r)) :: DequeOf(events, k) == DequeOf(old(events), k)
    {
      var key, cutoff := Scoped(config, r, Subject(e, r)), e.now - Rules(config)[r].window;
      ghost var times := Times(log, r, Subject(e, r));
      var deque := DequeOf(events, key);
      assert DequeOk(config, events, log, e.now, r, Subject(e, r));
      while deque != [] && deque[0] <= cutoff
        invariant events == old(events) && Suffix(deque, times, cutoff) && |deque| <= Rules(config)[r].limit
        decreases |deque|
      {
        SuffixPops(deque, times, cutoff);
        deque := deque[1..];
      }
      PruningKeeps(config, events, log, e.now, r, Subject(e, r), deque);
      events := events[key := deque];
    }

    /** Admits exactly when counting over the full log admits under all three rules.  A rejected
        check leaves the log, and so every quota, as it was, and reports the exact wait for the
        first rule it violates. */
    method Check(e: Check) returns (retryAfter: Option<int>)
      requires Valid() && clock <= e.now
      modifies this
      ensures Valid() && clock == e.now
      ensures retryAfter.None? <==> Allowed(config, old(log), e)
      ensures log == Logged(config, old(log), e)
      ensures retryAfter.Some? ==>
        exists r: nat :: r < 3 && Blocks(config, log, e, r) && WaitIsExact(config, log, e, r, retryAfter.value)
    {
      TimePasses(config, events, log, clock, e.now);
      clock := e.now;
      for r := 0 to 3
        invariant Represents(config, events, log, e.now) && clock == e.now && log == old(log)
        invariant forall k: nat | k < r :: Pruned(config, events, e, k) && !Exceeds(config, log, e, k)
      {
        ghost var before := events;
        Prune(e, r);
        forall k: nat | k < r ensures Pruned(config, events, e, k) {
          assert Pruned(config, before, e, k);
          if Scoped(config, k, Subject(e, k)) == Scoped(config, r, Subject(e, r)) {
            ScopesAreSeparate(config, k, Subject(e, k), r, Subject(e, r));
          }
        }
        LengthCounts(config, events, log, e, r);
        var deque := DequeOf(events, Scoped(config, r, Subject(e, r)));
        if |deque| >= Rules(config)[r].limit {
          BlockedWaits(config, events, log, e, r);
          assert Blocks(config, log, e, r);
          return Some(RetryAfter(Rules(config)[r].window, e.now, deque[0]));
        }
      }
      Append(e);
      return None;
    }

    method Append(e: Check)
      requires Represents(config, events, log, e.now)
      requires forall r: nat | r < 3 :: Pruned(config, events, e, r) && !Exceeds(config, log, e, r)
      modifies this`events, this`log
      ensures Represents(config, events, log, e.now) && log == old(log) + [e]
    {
      forall r: nat | r < 3 ensures |DequeOf(events, Scoped(config, r, Subject(e, r)))| < Rules(config)[r].limit {
        LengthCounts(config, events, log, e, r);
      }
      AppendingKeeps(config, events, log, e);
      for r := 0 to 3
        invariant events == Appended(config, old(events), e, r) && log == old(log)
      {
        var key := Scoped(config, r, Subject(e, r));
        events := events[key := DequeOf(events, key) + [e.now]];
      }
      log := log + [e];
    }
  }

  /** The first rule, in order, that the check violates. */
  predicate Blocks(c: Config, log: seq<Check>, e: Check, r: nat) {
    r < 3 && Exceeds(c, log, e, r) && forall k: nat | k < r :: !Exceeds(c, log, e, k)
  }
}
