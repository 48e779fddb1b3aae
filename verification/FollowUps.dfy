/**
 Scheduled follow-ups: the stored rows and the transactions of the worker, of inbound user
 messages and of the agent wake (services/agent_followups.py, agents/followups.py).
 Times are seconds.
 */
module FollowUps {
  import opened Options

  type Id = nat

  datatype Status = Pending | Processing | Completed | Cancelled | Failed

  datatype FollowUp = FollowUp(
    status: Status, attempts: nat, dueAt: int, lockedAt: Option<int>,
    createdAt: int, conversation: Id, source: Id, depth: nat, cancellable: bool)

  const STALE_LOCK := 120
  const MAX_BACKOFF := 300

  datatype Settings = Settings(enabled: bool, minDelay: int, maxDelay: int, maxDepth: int, maxAttempts: nat)

  // ---------------------------------------------------------------- the worker's transactions

  predicate TakesOver(f: FollowUp, now: int) {
    f.status == Processing && f.lockedAt.Some? && f.lockedAt.value <= now - STALE_LOCK
  }

  predicate Eligible(f: FollowUp, now: int, maxAttempts: nat) {
    && f.attempts < maxAttempts
    && (((f.status == Pending || f.status == Failed) && f.dueAt <= now) || TakesOver(f, now))
  }

  function Claimed(f: FollowUp, now: int): FollowUp {
    f.(status := Processing, attempts := f.attempts + 1, lockedAt := Some(now))
  }

  function Finished(f: FollowUp): FollowUp {
    if f.status == Cancelled then f else f.(status := Completed, lockedAt := None)
  }

  function CancelledBy(f: FollowUp): FollowUp {
    if f.status == Completed then f else f.(status := Cancelled, lockedAt := None)
  }

  function Pow2(n: nat): nat { if n == 0 then 1 else 2 * Pow2(n - 1) }

  function Backoff(attempts: nat): nat {
    var delay := Pow2(if attempts < 1 then 1 else attempts);
    if delay < MAX_BACKOFF then delay else MAX_BACKOFF
  }

  function Retried(f: FollowUp, now: int): FollowUp {
    if f.status == Cancelled then f
    else f.(status := Failed, lockedAt := None, dueAt := now + Backoff(f.attempts))
  }

  /** The bulk update that accompanies every stored inbound message. */
  function CancelledByMessage(f: FollowUp, conversation: Id): FollowUp {
    if f.conversation == conversation && (f.status == Pending || f.status == Processing) && f.cancellable
    then f.(status := Cancelled, lockedAt := None) else f
  }

  lemma {:induction false} Pow2Grows(m: nat, n: nat)
    requires m <= n
    ensures 1 <= Pow2(m) <= Pow2(n)
  {
    if m < n { Pow2Grows(m, n - 1); } else if m > 0 { Pow2Grows(m - 1, n - 1); }
  }

  /** A failed follow-up waits at least two seconds, at most five minutes, and never less
      after more attempts. */
  lemma BackoffIsBounded(a: nat, b: nat)
    requires a <= b
    ensures 2 <= Backoff(a) <= Backoff(b) <= MAX_BACKOFF
  {
    Pow2Grows(1, if a < 1 then 1 else a);
    Pow2Grows(if a < 1 then 1 else a, if b < 1 then 1 else b);
  }

  /** It is two seconds after the first attempt and doubles with each further one. */
  lemma BackoffDoubles(a: nat)
    ensures a <= 1 ==> Backoff(a) == 2
    ensures a >= 1 ==> Backoff(a + 1) == if 2 * Backoff(a) < 300 then 2 * Backoff(a) else 300
  {
    if a >= 1 { Pow2Grows(1, a); }
  }

  // ---------------------------------------------------------------- scheduling

  datatype Proposal = Proposal(dueAfter: int)

  function Clamped(x: int, lo: int, hi: int): int {
    var capped := if x < hi then x else hi;
    if lo < capped then capped else lo
  }

  predicate Schedules(table: map<Id, FollowUp>, source: Id, proposal: Option<Proposal>, depth: int,
        settings: Settings) {
    && proposal.Some? && settings.enabled && depth < settings.maxDepth
    && !exists id :: id in table && table[id].source == source
  }

  /** The table after a wake asked for a follow-up under the fresh row id `id`. */
  function Scheduled(table: map<Id, FollowUp>, id: Id, conversation: Id, source: Id, proposal: Option<Proposal>,
        depth: nat, settings: Settings, now: int): map<Id, FollowUp> {
    if Schedules(table, source, proposal, depth, settings) then
      var due := now + Clamped(proposal.value.dueAfter, settings.minDelay, settings.maxDelay);
      table[id := FollowUp(Pending, 0, due, None, now, conversation, source, depth + 1, true)]
    else table
  }

  predicate Wanted(id: Id, wanted: Option<Id>) {
    wanted.None? || wanted.value == id
  }

  predicate DueFirst(f: FollowUp, g: FollowUp) {
    f.dueAt < g.dueAt || (f.dueAt == g.dueAt && f.createdAt <= g.createdAt)
  }

  /** Whose turn it is at `now`: a pending or failed row that is due, or one that a worker has
      held for two minutes. */
  predicate DueOrStale(f: FollowUp, now: int) {
    match f.status
    case Pending => f.dueAt <= now
    case Failed => f.dueAt <= now
    case Processing => f.lockedAt.Some? && f.lockedAt.value + 120 <= now
    case Completed => false
    case Cancelled => false
  }

  class FollowUpTable {
    var rows: map<Id, FollowUp>

    constructor ()
      ensures rows == map[]
    {
      rows := map[];
    }

    /** `_claim_follow_up`: the earliest eligible row, if any, and no other is touched. */
    method Claim(now: int, maxAttempts: nat, wanted: Option<Id>) returns (claimed: Option<Id>)
      modifies this
      ensures claimed.None? ==> rows == old(rows)
      ensures claimed.None? ==> forall id | id in rows && Wanted(id, wanted) :: !Eligible(rows[id], now, maxAttempts)
      ensures claimed.None? ==>
        forall id | id in rows && (wanted.Some? ==> id == wanted.value) ::
          rows[id].attempts < maxAttempts ==> !DueOrStale(rows[id], now)
      ensures claimed.Some? ==>
        && claimed.value in old(rows) && (wanted.Some? ==> claimed == wanted)
        && old(rows)[claimed.value].attempts < maxAttempts && DueOrStale(old(rows)[claimed.value], now)
        && rows == old(rows)[claimed.value := old(rows)[claimed.value].(
             status := Processing, lockedAt := Some(now), attempts := old(rows)[claimed.value].attempts + 1)]
      ensures claimed.Some? ==>
        && claimed.value in old(rows) && Wanted(claimed.value, wanted)
        && Eligible(old(rows)[claimed.value], now, maxAttempts)
        && rows == old(rows)[claimed.value := Claimed(old(rows)[claimed.value], now)]
        && (forall id | id in old(rows) && Wanted(id, wanted) && Eligible(old(rows)[id], now, maxAttempts) ::
              DueFirst(old(rows)[claimed.value], old(rows)[id]))
        && (forall id | id in old(rows) && wanted.None?
              && old(rows)[id].attempts < maxAttempts && DueOrStale(old(rows)[id], now) ::
              && old(rows)[claimed.value].dueAt <= old(rows)[id].dueAt
              && (old(rows)[claimed.value].dueAt == old(rows)[id].dueAt ==>
                    old(rows)[claimed.value].createdAt <= old(rows)[id].createdAt))
    {
      var candidates := set id | id in rows && Wanted(id, wanted) && Eligible(rows[id], now, maxAttempts);
      if candidates == {} {
        assert forall id | id in rows && Wanted(id, wanted) :: Eligible(rows[id], now, maxAttempts) ==>
          id in candidates;
        return None;
      }
      var best :| best in candidates;
      var rest := candidates - {best};
      while rest != {}
        invariant best in candidates && rest <= candidates
        invariant forall id | id in candidates - rest :: DueFirst(rows[best], rows[id])
      {
        var id :| id in rest;
        if rows[id].dueAt < rows[best].dueAt
           || (rows[id].dueAt == rows[best].dueAt && rows[id].createdAt < rows[best].createdAt) { best := id; }
        rest := rest - {id};
      }
      var f := rows[best];
      rows := rows[best := f.(status := Processing, attempts := f.attempts + 1, lockedAt := Some(now))];
      return Some(best);
    }

    method Complete(id: Id)
      modifies this
      ensures rows == if id in old(rows) then old(rows)[id := Finished(old(rows)[id])] else old(rows)
      ensures id in old(rows) && old(rows)[id].status == Cancelled ==> rows == old(rows)
      ensures id in old(rows) && old(rows)[id].status != Cancelled ==>
        rows == old(rows)[id := old(rows)[id].(status := Completed, lockedAt := None)]
    {
      if id !in rows { return; }
      if rows[id].status == Cancelled {
        assert rows == rows[id := rows[id]];
        return;
      }
      rows := rows[id := rows[id].(status := Completed, lockedAt := None)];
    }

    method Cancel(id: Id)
      modifies this
      ensures rows == if id in old(rows) then old(rows)[id := CancelledBy(old(rows)[id])] else old(rows)
      ensures id in old(rows) && old(rows)[id].status == Completed ==> rows == old(rows)
      ensures id in old(rows) && old(rows)[id].status != Completed ==>
        rows == old(rows)[id := old(rows)[id].(status := Cancelled, lockedAt := None)]
    {
      if id !in rows { return; }
      if rows[id].status == Completed {
        assert rows == rows[id := rows[id]];
        return;
      }
      rows := rows[id := rows[id].(status := Cancelled, lockedAt := None)];
    }

    method Retry(id: Id, now: int)
      modifies this
      ensures rows == if id in old(rows) then old(rows)[id := Retried(old(rows)[id], now)] else old(rows)
      ensures id in old(rows) && old(rows)[id].status == Cancelled ==> rows == old(rows)
      ensures id in old(rows) && old(rows)[id].status != Cancelled ==>
        && rows == old(rows)[id := old(rows)[id].(status := Failed, lockedAt := None, dueAt := rows[id].dueAt)]
        && rows[id].dueAt == now + Backoff(old(rows)[id].attempts) && now + 2 <= rows[id].dueAt <= now + 300
    {
      if id !in rows { return; }
      if rows[id].status == Cancelled {
        assert rows == rows[id := rows[id]];
        return;
      }
      BackoffIsBounded(rows[id].attempts, rows[id].attempts);
      var delay := Pow2(if rows[id].attempts < 1 then 1 else rows[id].attempts);
      if delay > MAX_BACKOFF { delay := MAX_BACKOFF; }
      rows := rows[id := rows[id].(status := Failed, lockedAt := None, dueAt := now + delay)];
    }

    /** `cancel_pending_follow_ups`: returns how many rows it cancelled. */
    method CancelPending(conversation: Id) returns (count: nat)
      modifies this
      ensures rows == map id | id in old(rows) :: CancelledByMessage(old(rows)[id], conversation)
      ensures forall id | id in rows ::
        rows[id] ==
          if old(rows)[id].conversation == conversation && old(rows)[id].cancellable
             && (old(rows)[id].status == Pending || old(rows)[id].status == Processing)
          then old(rows)[id].(status := Cancelled, lockedAt := None) else old(rows)[id]
      ensures count == |set id | id in old(rows) && rows[id] != old(rows)[id]|
    {
      var hit := set id | id in rows && rows[id].conversation == conversation
        && (rows[id].status == Pending || rows[id].status == Processing) && rows[id].cancellable;
      rows := map id | id in rows :: if id in hit then rows[id].(status := Cancelled, lockedAt := None) else rows[id];
      assert hit == set id | id in old(rows) && rows[id] != old(rows)[id];
      return |hit|;
    }

    /** `schedule_follow_up`: at most one row per source run, never beyond the chain depth. */
    method Schedule(id: Id, conversation: Id, source: Id, proposal: Option<Proposal>, depth: nat,
          settings: Settings, now: int)
      returns (row: Option<Id>)
      requires id !in rows
      modifies this
      ensures Schedules(old(rows), source, proposal, depth, settings) ==>
        && row == Some(id) && rows.Keys == old(rows).Keys + {id}
        && (forall k | k in old(rows) :: rows[k] == old(rows)[k])
        && rows[id].status == Pending && rows[id].attempts == 0 && rows[id].cancellable
        && rows[id].source == source && rows[id].conversation == conversation
        && 0 < rows[id].depth <= settings.maxDepth && rows[id].depth == depth + 1
        && rows[id].dueAt == now + Clamped(proposal.value.dueAfter, settings.minDelay, settings.maxDelay)
        && (settings.minDelay <= settings.maxDelay ==> settings.minDelay <= rows[id].dueAt - now <= settings.maxDelay)
      ensures rows == Scheduled(old(rows), id, conversation, source, proposal, depth, settings, now)
      ensures row == Some(id) <==>
        && proposal.Some? && settings.enabled && depth < settings.maxDepth
        && forall k | k in old(rows) :: old(rows)[k].source != source
      ensures row == Some(id) ==>
        && rows.Keys == old(rows).Keys + {id} && (forall k | k in old(rows) :: rows[k] == old(rows)[k])
        && rows[id] == FollowUp(Pending, 0, rows[id].dueAt, None, now, conversation, source, depth + 1, true)
        && (settings.minDelay <= rows[id].dueAt - now)
        && (rows[id].dueAt - now == settings.minDelay || rows[id].dueAt - now <= settings.maxDelay)
        && (settings.minDelay <= proposal.value.dueAfter <= settings.maxDelay ==>
              rows[id].dueAt == now + proposal.value.dueAfter)
        && (settings.minDelay <= settings.maxDelay < proposal.value.dueAfter ==>
              rows[id].dueAt == now + settings.maxDelay)
      ensures row != Some(id) ==> rows == old(rows)
      ensures row.Some? ==> row.value in rows && rows[row.value].source == source
    {
      if proposal.None? || !settings.enabled || depth >= settings.maxDepth { return None; }
      if k :| k in rows && rows[k].source == source { return Some(k); }
      var delay := if proposal.value.dueAfter < settings.maxDelay then proposal.value.dueAfter else settings.maxDelay;
      if delay < settings.minDelay { delay := settings.minDelay; }
      rows := rows[id := FollowUp(Pending, 0, now + delay, None, now, conversation, source, depth + 1, true)];
      return Some(id);
    }
  }
}
