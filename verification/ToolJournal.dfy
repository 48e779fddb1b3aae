/**
 The durable journal row behind one tool call, keyed by agent run and external call id
 (`ToolRegistry` in agents/tools.py).  Each function below is what one committed
 transaction does to the row; `ToolCallTable` performs the same transactions in place.
 Times are milliseconds.
 */
module ToolJournal {
  import opened Options

  const LEASE: int := 30_000
  const HEARTBEAT: int := LEASE / 3

  type Claimant = nat

  datatype Request = Request(tool: string, arguments: string)
  datatype Status = Running | Completed | Failed
  datatype Outcome = Outcome(output: string, succeeded: bool)

  datatype Row = Row(
    request: Request,
    output: string,
    status: Status,
    attempts: nat,
    claimedBy: Option<Claimant>,
    lease: Option<int>)
  {
    predicate Terminal() { status != Running }

    function Result(): Outcome { Outcome(output, status == Completed) }
  }

  /** What the reading transaction at the top of the start loop leads to. */
  datatype Reading =
    | Absent
    | Mismatch
    | Replay(outcome: Outcome)
    | Expired(seen: Option<int>)
    | Wait

  datatype Finishing = Stored | Replayed(outcome: Outcome) | Reclaimed | Disappeared

  function Observe(row: Option<Row>, request: Request, now: int): Reading {
    match row
    case None => Absent
    case Some(r) =>
      if r.request != request then Mismatch
      else if r.Terminal() then Replay(r.Result())
      else if r.lease == None || r.lease.value <= now then Expired(r.lease)
      else Wait
  }

  function Fresh(request: Request, claimant: Claimant, now: int): Row {
    Row(request, "", Running, 1, Some(claimant), Some(now + LEASE))
  }

  /** Every reader of the same call waits before `until` and may take over from then on. */
  ghost predicate HeldUntil(row: Option<Row>, until: int) {
    && row.Some?
    && (forall now | now < until :: Observe(row, row.value.request, now) == Wait)
    && (forall now | until <= now :: Observe(row, row.value.request, now) == Expired(Some(until)))
  }

  /** The compare-and-swap guard: still running, lease exactly as it was read. */
  predicate ClaimWins(row: Option<Row>, seen: Option<int>) {
    row.Some? && row.value.status == Running && row.value.lease == seen
  }

  function Claimed(row: Option<Row>, claimant: Claimant, seen: Option<int>, now: int): Option<Row> {
    if ClaimWins(row, seen) then
      Some(row.value.(claimedBy := Some(claimant), lease := Some(now + LEASE), attempts := row.value.attempts + 1))
    else row
  }

  predicate Owns(row: Option<Row>, claimant: Claimant) {
    row.Some? && row.value.status == Running && row.value.claimedBy == Some(claimant)
  }

  function Renewed(row: Option<Row>, claimant: Claimant, stamp: int): Option<Row> {
    if Owns(row, claimant) then Some(row.value.(lease := Some(stamp + LEASE))) else row
  }

  function StatusOf(outcome: Outcome): Status {
    if outcome.succeeded then Completed else Failed
  }

  function FinishReading(row: Option<Row>, claimant: Claimant): Finishing {
    match row
    case None => Disappeared
    case Some(r) =>
      if r.Terminal() then Replayed(r.Result())
      else if r.claimedBy != Some(claimant) then Reclaimed
      else Stored
  }

  function Finished(row: Option<Row>, claimant: Claimant, outcome: Outcome): Option<Row> {
    if Owns(row, claimant) then
      Some(row.value.(output := outcome.output, status := StatusOf(outcome), claimedBy := None, lease := None))
    else row
  }

  /** The agent wake writing a returned pair back onto an existing row (agents/service.py). */
  function Reconciled(row: Option<Row>, request: Request, outcome: Outcome): Option<Row> {
    if row.Some? && row.value.request == request then
      Some(row.value.(output := outcome.output, status := StatusOf(outcome)))
    else row
  }

  class ToolCallTable {
    var present: bool
    var request: Request
    var output: string
    var status: Status
    var attempts: nat
    var claimedBy: Option<Claimant>
    var lease: Option<int>

    ghost function Contents(): Option<Row>
      reads this
    {
      if present then Some(Row(request, output, status, attempts, claimedBy, lease)) else None
    }

    constructor ()
      ensures Contents() == None
    {
      present, request, output, status := false, Request("", ""), "", Running;
      attempts, claimedBy, lease := 0, None, None;
    }

    /** The select at the top of the start loop, with the checks that follow it. */
    method Read(request: Request, now: int) returns (reading: Reading)
      ensures reading == Observe(Contents(), request, now)
      ensures reading.Wait? <==>
        present && this.request == request && status == Running && lease.Some? && now < lease.value
      ensures reading.Replay? ==> reading.outcome == Outcome(output, status == Completed) && status != Running
    {
      if !present { return Absent; }
      if this.request != request { return Mismatch; }
      if status != Running { return Replay(Outcome(output, status == Completed)); }
      if lease.None? || lease.value <= now { return Expired(lease); }
      return Wait;
    }

    /** Insert under the unique constraint; `won` is false on an integrity error. */
    method Insert(request: Request, claimant: Claimant, now: int) returns (won: bool)
      modifies this
      ensures won <==> old(Contents()) == None
      ensures Contents() == if won then Some(Fresh(request, claimant, now)) else old(Contents())
      ensures won ==> this.request == request && Owns(Contents(), claimant) && HeldUntil(Contents(), now + 30_000)
    {
      if present { return false; }
      present := true;
      this.request, output, status := request, "", Running;
      attempts, claimedBy, lease := 1, Some(claimant), Some(now + LEASE);
      return true;
    }

    method Claim(claimant: Claimant, seen: Option<int>, now: int) returns (won: bool)
      modifies this`claimedBy, this`lease, this`attempts
      ensures won <==> ClaimWins(old(Contents()), seen)
      ensures won <==> old(present && status == Running && lease == seen)
      ensures Contents() == Claimed(old(Contents()), claimant, seen, now)
      ensures won <==> Contents() != old(Contents())
      ensures old(Contents()).Some? && old(Contents()).value.Terminal() ==> !won
      ensures won ==> Owns(Contents(), claimant) && attempts == old(attempts) + 1
      ensures won ==> HeldUntil(Contents(), now + 30_000)
    {
      if !present || status != Running || lease != seen { return false; }
      claimedBy, lease, attempts := Some(claimant), Some(now + LEASE), attempts + 1;
      return true;
    }

    method Renew(claimant: Claimant, stamp: int) returns (renewed: bool)
      modifies this`lease
      ensures renewed <==> Owns(old(Contents()), claimant)
      ensures Contents() == Renewed(old(Contents()), claimant, stamp)
      ensures Owns(Contents(), claimant) <==> Owns(old(Contents()), claimant)
      ensures renewed ==> HeldUntil(Contents(), stamp + 30_000)
      ensures old(Contents()).Some? && old(Contents()).value.Terminal() ==> Contents() == old(Contents())
    {
      if !present || status != Running || claimedBy != Some(claimant) { return false; }
      lease := Some(stamp + LEASE);
      return true;
    }

    method Finish(claimant: Claimant, outcome: Outcome) returns (result: Finishing)
      modifies this`output, this`status, this`claimedBy, this`lease
      ensures result == FinishReading(old(Contents()), claimant)
      ensures Contents() == Finished(old(Contents()), claimant, outcome)
      ensures result.Stored? <==> old(present && status == Running && claimedBy == Some(claimant))
      ensures result.Reclaimed? <==> old(present && status == Running && claimedBy != Some(claimant))
      ensures result.Stored? ==> Contents().value.Terminal() && Contents().value.Result() == outcome
      ensures !result.Stored? ==> Contents() == old(Contents())
      ensures result.Replayed? ==> Contents().Some? && Contents().value.Result() == result.outcome
    {
      if !present { return Disappeared; }
      if status != Running { return Replayed(Outcome(output, status == Completed)); }
      if claimedBy != Some(claimant) { return Reclaimed; }
      output := outcome.output;
      status := if outcome.succeeded then Completed else Failed;
      claimedBy, lease := None, None;
      return Stored;
    }

    /** False stands for the error raised when the identity was reused. */
    method Reconcile(request: Request, outcome: Outcome) returns (accepted: bool)
      modifies this`output, this`status
      ensures accepted <==> old(Contents()).Some? && old(Contents()).value.request == request
      ensures Contents() == Reconciled(old(Contents()), request, outcome)
      ensures accepted <==> present && this.request == request
      ensures accepted ==> output == outcome.output && status == if outcome.succeeded then Completed else Failed
      ensures !accepted ==> Contents() == old(Contents())
    {
      if !present || this.request != request { return false; }
      output := outcome.output;
      status := if outcome.succeeded then Completed else Failed;
      return true;
    }
  }
}
