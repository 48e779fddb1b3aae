/**
 Any number of executors racing for one journal row, in any interleaving of their
 transactions, clock readings, heartbeats, tool results and crashes.  An action that is
 not enabled leaves the state alone, so every sequence of actions is a run.
 */
module ToolJournalProtocol {
  import opened Options
  import opened ToolJournal

  datatype Beat = Sleeping(since: int) | Stamped(at: int) | Stopped

  datatype Pc =
    | Polling
    | Inserting(now: int)
    | Claiming(seen: Option<int>, now: int, touchesSeen: nat)
    | Executing(beat: Beat)
    | Closing(outcome: Outcome)
    | Returned(outcome: Outcome)
    | Raised
    | Crashed

  datatype Executor = Executor(request: Request, pc: Pc)

  /** `heard`, `claims`, `touches`, `toolRuns` and `writes` only record what happened. */
  datatype State = State(
    clock: int,
    row: Option<Row>,
    executors: map<Claimant, Executor>,
    heard: int,       // the time of the latest committed claim or heartbeat
    claims: nat,      // successful inserts and takeovers
    touches: nat,     // claims and lease renewals
    toolRuns: nat,    // times the tool was started
    writes: nat)      // times a result was stored by a finish

  datatype Action =
    | Tick(elapsed: nat)
    | Arrive(id: Claimant, request: Request)
    | Look(id: Claimant)
    | TryInsert(id: Claimant)
    | TryClaim(id: Claimant)
    | Stamp(id: Claimant)
    | TryRenew(id: Claimant)
    | ToolDone(id: Claimant, outcome: Outcome)
    | TryFinish(id: Claimant)
    | WriteBack(id: Claimant)
    | Crash(id: Claimant)

  function Initial(clock: int): State {
    State(clock, None, map[], clock, 0, 0, 0, 0)
  }

  function At(s: State, id: Claimant, pc: Pc): State
    requires id in s.executors
  {
    s.(executors := s.executors[id := s.executors[id].(pc := pc)])
  }

  /** A claim was committed: the claimant starts its heartbeat and the tool. */
  function Started(s: State, id: Claimant, row: Option<Row>, now: int): State
    requires id in s.executors
  {
    At(s, id, Executing(Sleeping(s.clock))).(
      row := row, heard := now, claims := s.claims + 1, touches := s.touches + 1, toolRuns := s.toolRuns + 1)
  }

  function Looked(s: State, id: Claimant): State
    requires id in s.executors
  {
    match Observe(s.row, s.executors[id].request, s.clock)
    case Absent => At(s, id, Inserting(s.clock))
    case Mismatch => At(s, id, Raised)
    case Replay(outcome) => At(s, id, Returned(outcome))
    case Expired(seen) => At(s, id, Claiming(seen, s.clock, s.touches))
    case Wait => s
  }

  function FinishDone(s: State, id: Claimant, outcome: Outcome): State
    requires id in s.executors
  {
    var row' := Finished(s.row, id, outcome);
    match FinishReading(s.row, id)
    case Disappeared => At(s, id, Raised)
    case Reclaimed => At(s, id, Raised)
    case Replayed(stored) => At(s, id, Returned(stored))
    case Stored => At(s, id, Returned(outcome)).(row := row', writes := s.writes + 1)
  }

  function Apply(s: State, a: Action): State {
    if a.Tick? then s.(clock := s.clock + a.elapsed)
    else if a.Arrive? then
      if a.id in s.executors then s
      else s.(executors := s.executors[a.id := Executor(a.request, Polling)])
    else if a.id !in s.executors then s
    else ApplyLocal(s, a)
  }

  function ApplyLocal(s: State, a: Action): State
    requires !a.Tick? && !a.Arrive? && a.id in s.executors
  {
    var e := s.executors[a.id];
    match a
    case Look(id) =>
      if e.pc == Polling then Looked(s, id) else s
    case TryInsert(id) =>
      if !e.pc.Inserting? then s
      else if s.row.Some? then At(s, id, Polling)
      else Started(s, id, Some(Fresh(e.request, id, e.pc.now)), e.pc.now)
    case TryClaim(id) =>
      if !e.pc.Claiming? then s
      else if !ClaimWins(s.row, e.pc.seen) then At(s, id, Polling)
      else Started(s, id, Claimed(s.row, id, e.pc.seen, e.pc.now), e.pc.now)
    case Stamp(id) =>
      if e.pc.Executing? && e.pc.beat.Sleeping? && s.clock >= e.pc.beat.since + HEARTBEAT
      then At(s, id, Executing(Stamped(s.clock))) else s
    case TryRenew(id) =>
      if !e.pc.Executing? || !e.pc.beat.Stamped? then s
      else if !Owns(s.row, id) then At(s, id, Executing(Stopped))
      else At(s, id, Executing(Sleeping(s.clock))).(
        row := Renewed(s.row, id, e.pc.beat.at), heard := e.pc.beat.at, touches := s.touches + 1)
    case ToolDone(id, outcome) =>
      if e.pc.Executing? then At(s, id, Closing(outcome)) else s
    case TryFinish(id) =>
      if e.pc.Closing? then FinishDone(s, id, e.pc.outcome) else s
    case WriteBack(id) =>
      if e.pc.Returned? then s.(row := Reconciled(s.row, e.request, e.pc.outcome)) else s
    case Crash(id) =>
      if e.pc.Returned? then s else At(s, id, Crashed)
  }

  function Run(s: State, actions: seq<Action>): State
    decreases |actions|
  {
    if actions == [] then s else Run(Apply(s, actions[0]), actions[1..])
  }

  // ---------------------------------------------------------------- the invariant

  predicate RowOk(s: State) {
    match s.row
    case None => s.claims == 0 && s.touches == 0 && s.toolRuns == 0 && s.writes == 0
    case Some(r) =>
      && r.attempts == s.claims == s.toolRuns
      && 1 <= s.claims <= s.touches
      && s.writes == (if r.Terminal() then 1 else 0)
      && (r.Terminal() <==> r.claimedBy == None)
      && (r.Terminal() <==> r.lease == None)
  }

  /** A renewal that is pending or still to come lies strictly beyond the current lease. */
  predicate BeatOk(s: State, id: Claimant, beat: Beat) {
    && (beat.Sleeping? ==> beat.since <= s.clock)
    && (beat.Stamped? ==> beat.at <= s.clock)
    && (Owns(s.row, id) && s.row.value.lease.Some? ==>
          && (beat.Sleeping? ==> s.row.value.lease.value <= beat.since + LEASE)
          && (beat.Stamped? ==> s.row.value.lease.value < beat.at + LEASE))
  }

  /** Once the row was touched after the read, the lease has moved past what was read. */
  predicate ClaimOk(s: State, pc: Pc)
    requires pc.Claiming?
  {
    && s.row.Some?
    && pc.seen.Some? && pc.seen.value <= pc.now <= s.clock
    && pc.touchesSeen <= s.touches
    && (s.row.value.lease.Some? ==>
          && pc.seen.value <= s.row.value.lease.value
          && (pc.touchesSeen < s.touches ==> pc.seen.value < s.row.value.lease.value))
  }

  predicate ExecutorOk(s: State, id: Claimant)
    requires id in s.executors
  {
    var e := s.executors[id];
    match e.pc
    case Polling => !Owns(s.row, id)
    case Inserting(now) => now <= s.clock && !Owns(s.row, id)
    case Claiming(_, _, _) =>
      ClaimOk(s, e.pc) && s.row.value.request == e.request && !Owns(s.row, id)
    case Executing(beat) => BeatOk(s, id, beat) && s.row.Some? && s.row.value.request == e.request
    case Closing(_) => s.row.Some? && s.row.value.request == e.request
    case Returned(outcome) =>
      s.row.Some? && s.row.value.Terminal() && s.row.value.Result() == outcome && s.row.value.request == e.request
    case Raised => !Owns(s.row, id)
    case Crashed => true
  }

  predicate Inv(s: State) {
    && RowOk(s)
    && (forall id | id in s.executors :: ExecutorOk(s, id))
    && (s.row.Some? && s.row.value.claimedBy.Some? ==> s.row.value.claimedBy.value in s.executors)
  }

  /** How an action may move the row as seen by executors other than the one acting. */
  ghost predicate Moves(s: State, s': State, actor: Claimant) {
    && s.clock <= s'.clock
    && s.touches <= s'.touches
    && (s.row.Some? ==> s'.row.Some? && s'.row.value.request == s.row.value.request)
    && (s.row.Some? && s.row.value.Terminal() ==> s'.row == s.row)
    && (s'.row.Some? && s'.row.value.claimedBy.Some? ==>
          s'.row.value.claimedBy == Some(actor) || s'.row == s.row)
    && (s'.row != s.row && s.row.Some? && s'.row.value.lease.Some? ==>
          s.row.value.lease.Some? && s.row.value.lease.value < s'.row.value.lease.value)
    && (s.touches < s'.touches ==> s'.row != s.row)
  }

  lemma OthersStayOk(s: State, s': State, actor: Claimant, id: Claimant)
    requires Inv(s) && Moves(s, s', actor)
    requires id != actor && id in s.executors && id in s'.executors && s'.executors[id] == s.executors[id]
    ensures ExecutorOk(s', id)
  {
    assert ExecutorOk(s, id);
  }

  lemma LocalMoves(s: State, a: Action)
    requires Inv(s) && !a.Tick? && !a.Arrive? && a.id in s.executors
    ensures var t := Apply(s, a); t.executors.Keys == s.executors.Keys && Moves(s, t, a.id) && RowOk(t)
    ensures forall other | other in s.executors && other != a.id :: Apply(s, a).executors[other] == s.executors[other]
  {
    assert ExecutorOk(s, a.id);
  }

  lemma ActorStaysOk(s: State, a: Action)
    requires Inv(s) && !a.Tick? && !a.Arrive? && a.id in s.executors
    ensures var t := Apply(s, a); a.id in t.executors && ExecutorOk(t, a.id)
  {
    assert ExecutorOk(s, a.id);
  }

  lemma StepKeepsInv(s: State, a: Action)
    requires Inv(s)
    ensures Inv(Apply(s, a))
  {
    var s' := Apply(s, a);
    if a.Tick? || a.Arrive? || a.id !in s.executors {
      forall id | id in s'.executors ensures ExecutorOk(s', id) {
        if id in s.executors { assert ExecutorOk(s, id); }
      }
    } else {
      LocalMoves(s, a);
      ActorStaysOk(s, a);
      forall id | id in s'.executors && id != a.id ensures ExecutorOk(s', id) {
        OthersStayOk(s, s', a.id, id);
      }
    }
  }

  // ---------------------------------------------------------------- whole runs

  lemma {:induction false} RunKeepsInv(s: State, actions: seq<Action>)
    requires Inv(s)
    ensures Inv(Run(s, actions))
    decreases |actions|
  {
    if actions != [] {
      StepKeepsInv(s, actions[0]);
      RunKeepsInv(Apply(s, actions[0]), actions[1..]);
    }
  }

  lemma StepMoves(s: State, a: Action)
    requires Inv(s)
    ensures a.Tick? || a.Arrive? || a.id !in s.executors ==>
      Apply(s, a).row == s.row && Apply(s, a).touches == s.touches
    ensures !a.Tick? && !a.Arrive? && a.id in s.executors ==> Moves(s, Apply(s, a), a.id)
  {
    if !a.Tick? && !a.Arrive? && a.id in s.executors { LocalMoves(s, a); }
  }

  /** Once terminal, no interleaving changes the row: neither output nor status nor anything
      else, the write-backs of later agent wakes included. */
  lemma {:induction false} TerminalRowNeverChanges(s: State, actions: seq<Action>)
    requires Inv(s) && s.row.Some? && s.row.value.Terminal()
    ensures Run(s, actions).row == s.row
    decreases |actions|
  {
    if actions != [] {
      StepMoves(s, actions[0]);
      StepKeepsInv(s, actions[0]);
      TerminalRowNeverChanges(Apply(s, actions[0]), actions[1..]);
    }
  }

  predicate Returns(s: State, id: Claimant, outcome: Outcome) {
    id in s.executors && s.executors[id].pc == Returned(outcome)
  }

  /** Whoever returns, whenever it returns, returns the one stored pair for the one request. */
  lemma JournalAgreement(clock: int, before: seq<Action>, after: seq<Action>,
                         i: Claimant, first: Outcome, j: Claimant, second: Outcome)
    requires Returns(Run(Initial(clock), before), i, first)
    requires Returns(Run(Run(Initial(clock), before), after), j, second)
    ensures first == second
    ensures var s, t := Run(Initial(clock), before), Run(Run(Initial(clock), before), after);
      t.row == s.row && t.row.Some? && t.row.value.Result() == first
      && s.executors[i].request == t.executors[j].request
  {
    var s := Run(Initial(clock), before);
    RunKeepsInv(Initial(clock), before);
    assert ExecutorOk(s, i);
    TerminalRowNeverChanges(s, after);
    RunKeepsInv(s, after);
    assert ExecutorOk(Run(s, after), j);
  }

  /** Through any run that stays unfinished the lease never goes back, and every claim or
      renewal moves it strictly forward. */
  lemma {:induction false} LeaseNeverGoesBack(s: State, actions: seq<Action>)
    requires Inv(s) && s.row.Some?
    requires Run(s, actions).row.Some? && !Run(s, actions).row.value.Terminal()
    ensures s.row.value.lease.Some? && Run(s, actions).row.value.lease.Some?
    ensures s.row.value.lease.value <= Run(s, actions).row.value.lease.value
    ensures s.touches < Run(s, actions).touches ==> s.row.value.lease.value < Run(s, actions).row.value.lease.value
    decreases |actions|
  {
    RunKeepsInv(s, actions);
    if s.row.value.Terminal() {
      TerminalRowNeverChanges(s, actions);
    } else if actions != [] {
      StepMoves(s, actions[0]);
      StepKeepsInv(s, actions[0]);
      LeaseNeverGoesBack(Apply(s, actions[0]), actions[1..]);
    }
  }

  /** A takeover succeeds only over an expired lease that nobody claimed or renewed since
      the claimant read it, however long ago that was. */
  lemma TakeoverIsFenced(clock: int, actions: seq<Action>, id: Claimant)
    requires var s := Run(Initial(clock), actions);
      id in s.executors && s.executors[id].pc.Claiming? && ClaimWins(s.row, s.executors[id].pc.seen)
    ensures var s := Run(Initial(clock), actions);
      && s.touches == s.executors[id].pc.touchesSeen
      && s.row.value.lease.Some? && s.row.value.lease.value <= s.executors[id].pc.now <= s.clock
      && s.row.value.request == s.executors[id].request
  {
    RunKeepsInv(Initial(clock), actions);
    assert ExecutorOk(Run(Initial(clock), actions), id);
  }

  /** Only the finish of the current claimant can store a result, and it stores its own. */
  lemma OnlyTheClaimantStores(clock: int, actions: seq<Action>, a: Action)
    requires var s := Run(Initial(clock), actions);
      (s.row.None? || !s.row.value.Terminal()) && Apply(s, a).row.Some? && Apply(s, a).row.value.Terminal()
    ensures var s := Run(Initial(clock), actions);
      && a.TryFinish? && s.row.Some? && s.row.value.claimedBy == Some(a.id)
      && a.id in s.executors && s.executors[a.id].pc.Closing?
      && Apply(s, a).row.value.Result() == s.executors[a.id].pc.outcome
      && Apply(s, a).row.value.attempts == s.row.value.attempts
  {
    var s := Run(Initial(clock), actions);
    RunKeepsInv(Initial(clock), actions);
    if !a.Tick? && !a.Arrive? && a.id in s.executors {
      assert ExecutorOk(s, a.id);
    }
  }

  /** `attempts` counts the successful claims, the tool is started once per claim, and at
      most one result is ever stored. */
  lemma AttemptsCountClaims(clock: int, actions: seq<Action>)
    ensures var s := Run(Initial(clock), actions);
      && s.toolRuns == s.claims == (if s.row.Some? then s.row.value.attempts else 0)
      && s.writes == (if s.row.Some? && s.row.value.Terminal() then 1 else 0)
      && (s.row.Some? ==> s.row.value.attempts >= 1)
  {
    RunKeepsInv(Initial(clock), actions);
  }

  /** An executor that ran the tool and lost its claim. */
  predicate Displaced(s: State, id: Claimant) {
    && id in s.executors && s.row.Some? && !Owns(s.row, id)
    && (s.executors[id].pc.Executing? || s.executors[id].pc.Closing? || s.executors[id].pc.Returned?
        || s.executors[id].pc.Raised? || s.executors[id].pc.Crashed?)
  }

  lemma StepKeepsDisplaced(s: State, a: Action, id: Claimant)
    requires Inv(s) && Displaced(s, id)
    ensures Displaced(Apply(s, a), id)
  {
    if !a.Tick? && !a.Arrive? && a.id in s.executors {
      LocalMoves(s, a);
      if a.id == id { ActorStaysOk(s, a); }
    }
  }

  /** A displaced executor never owns the row again, whatever it or anybody else does. */
  lemma {:induction false} DisplacedStaysDisplaced(s: State, actions: seq<Action>, id: Claimant)
    requires Inv(s) && Displaced(s, id)
    ensures Displaced(Run(s, actions), id)
    decreases |actions|
  {
    if actions != [] {
      StepKeepsDisplaced(s, actions[0], id);
      StepKeepsInv(s, actions[0]);
      DisplacedStaysDisplaced(Apply(s, actions[0]), actions[1..], id);
    }
  }

  predicate LeaseHolds(s: State) {
    s.row.Some? && s.row.value.lease.Some? ==> s.clock < s.row.value.lease.value
  }

  ghost predicate LeaseAlwaysHolds(s: State, actions: seq<Action>)
    decreases |actions|
  {
    LeaseHolds(s) && (actions != [] ==> LeaseAlwaysHolds(Apply(s, actions[0]), actions[1..]))
  }

  predicate NobodyTakesOver(s: State) {
    s.claims <= 1 && forall id | id in s.executors :: !s.executors[id].pc.Claiming?
  }

  lemma StepTakesNothingOver(s: State, a: Action)
    requires Inv(s) && NobodyTakesOver(s) && LeaseHolds(s)
    ensures NobodyTakesOver(Apply(s, a))
  {
  }

  lemma {:induction false} NoExpiryNoTakeover(s: State, actions: seq<Action>)
    requires Inv(s) && NobodyTakesOver(s) && LeaseAlwaysHolds(s, actions)
    ensures NobodyTakesOver(Run(s, actions))
    decreases |actions|
  {
    if actions != [] {
      StepKeepsInv(s, actions[0]);
      StepTakesNothingOver(s, actions[0]);
      NoExpiryNoTakeover(Apply(s, actions[0]), actions[1..]);
    }
  }

  /** When no lease is ever allowed to expire, the tool is started at most once over the
      whole run, and exactly once when there is a row at all. */
  lemma ToolRunsOnceWithoutExpiry(clock: int, actions: seq<Action>)
    requires LeaseAlwaysHolds(Initial(clock), actions)
    ensures var s := Run(Initial(clock), actions); s.toolRuns == (if s.row.Some? then 1 else 0)
  {
    RunKeepsInv(Initial(clock), actions);
    NoExpiryNoTakeover(Initial(clock), actions);
  }

  // ---------------------------------------------------------------- what single steps do

  /** What an executor that looks at the row does next. */
  lemma LookDecides(s: State, id: Claimant)
    requires id in s.executors && s.executors[id].pc == Polling
    ensures var e, t := s.executors[id], Apply(s, Look(id));
      t == At(s, id,
        if s.row.None? then Inserting(s.clock)
        else if s.row.value.request != e.request then Raised
        else if s.row.value.status != Running then Returned(s.row.value.Result())
        else if s.row.value.lease == None || s.row.value.lease.value <= s.clock
        then Claiming(s.row.value.lease, s.clock, s.touches)
        else Polling)
  {
    assert s.executors[id := s.executors[id].(pc := Polling)] == s.executors;
  }

  /** How a call ends for its executor: it stores and returns its own outcome as the owner, returns
      what is stored when another finished, and raises when it lost its claim. */
  lemma FinishDecides(s: State, id: Claimant)
    requires id in s.executors && s.executors[id].pc.Closing? && s.row.Some?
    ensures var mine, r, t := s.executors[id].pc.outcome, s.row.value, Apply(s, TryFinish(id));
      && t.executors[id].pc == (
           if r.status != Running then Returned(r.Result())
           else if r.claimedBy == Some(id) then Returned(mine) else Raised)
      && (t.row == s.row || (r.claimedBy == Some(id) && t.row.value.Terminal() && t.row.value.Result() == mine))
      && t.writes == s.writes + (if t.row == s.row then 0 else 1)
  {
  }

  /** A heartbeat is stamped no earlier than ten seconds after the last; the owner's extends the
      lease to thirty seconds from its stamp, anybody else's ends the heartbeats. */
  lemma HeartbeatBeats(s: State, id: Claimant, since: int)
    requires Inv(s) && id in s.executors && s.executors[id].pc == Executing(Sleeping(since))
    ensures s.clock < since + 10_000 ==> Apply(s, Stamp(id)) == s
    ensures since + 10_000 <= s.clock ==>
      var t := Apply(Apply(s, Stamp(id)), TryRenew(id));
      if Owns(s.row, id) then
        && HeldUntil(t.row, s.clock + 30_000) && t.heard == s.clock && t.touches == s.touches + 1
        && t.executors[id].pc == Executing(Sleeping(s.clock))
      else t.row == s.row && t.executors[id].pc == Executing(Stopped)
  {
    if since + 10_000 <= s.clock {
      var stamped := Apply(s, Stamp(id));
      assert stamped == At(s, id, Executing(Stamped(s.clock)));
      var t := Apply(stamped, TryRenew(id));
      assert Owns(s.row, id) ==> t.row == Renewed(s.row, id, s.clock);
    }
  }

  /** Left alone, a call goes through: the tool runs once, its outcome is stored and returned, the
      row keeps it when the wake writes it back, and whoever asks for the same call later is given
      the same. */
  lemma UndisturbedCallReturns(clock: int, id: Claimant, later: Claimant, request: Request, outcome: Outcome)
    requires later != id
    ensures var call := [Arrive(id, request), Look(id), TryInsert(id), ToolDone(id, outcome), TryFinish(id)];
      var again := [WriteBack(id), Arrive(later, request), Look(later)];
      var s, t := Run(Initial(clock), call), Run(Initial(clock), call + again);
      && s.row.Some? && s.row.value.Terminal() && s.row.value.Result() == outcome && s.row.value.request == request
      && Returns(s, id, outcome) && s.toolRuns == s.writes == s.touches == 1
      && t.row == s.row && Returns(t, later, outcome) && t.toolRuns == 1
  {
    var call := More(Initial(clock), [], Arrive(id, request));
    call := More(Initial(clock), call, Look(id));
    call := More(Initial(clock), call, TryInsert(id));
    call := More(Initial(clock), call, ToolDone(id, outcome));
    call := More(Initial(clock), call, TryFinish(id));
    assert call == [Arrive(id, request), Look(id), TryInsert(id), ToolDone(id, outcome), TryFinish(id)];
    var s := Run(Initial(clock), call);
    var all := More(Initial(clock), call, WriteBack(id));
    all := More(Initial(clock), all, Arrive(later, request));
    all := More(Initial(clock), all, Look(later));
    assert all == call + [WriteBack(id), Arrive(later, request), Look(later)];
  }

  /** A crashed executor does nothing any more. */
  lemma {:induction false} CrashedStaysCrashed(s: State, actions: seq<Action>, id: Claimant)
    requires id in s.executors && !s.executors[id].pc.Returned?
    ensures var t := Run(Apply(s, Crash(id)), actions); id in t.executors && t.executors[id].pc == Crashed
    decreases |actions|
  {
    if actions != [] {
      CrashedStaysCrashed(s, actions[..|actions| - 1], id);
      assert actions == actions[..|actions| - 1] + [actions[|actions| - 1]];
      RunAppend(Apply(s, Crash(id)), actions[..|actions| - 1], actions[|actions| - 1]);
    }
  }

  // ---------------------------------------------------------------- heartbeats

  /** Whoever reads an unfinished call waits until 30 seconds after its owner was last heard of. */
  ghost predicate HeldSinceHeard(s: State) {
    s.row.Some? && !s.row.value.Terminal() ==> HeldUntil(s.row, s.heard + 30_000)
  }

  lemma StepKeepsHeld(s: State, a: Action)
    requires Inv(s) && HeldSinceHeard(s)
    ensures HeldSinceHeard(Apply(s, a))
  {
    if !a.Tick? && !a.Arrive? && a.id in s.executors { assert ExecutorOk(s, a.id); }
    if s.row.Some? && !s.row.value.Terminal() {
      assert Observe(s.row, s.row.value.request, s.heard + 30_000) == Expired(Some(s.heard + 30_000));
    }
  }

  lemma {:induction false} RunKeepsHeld(s: State, actions: seq<Action>)
    requires Inv(s) && HeldSinceHeard(s)
    ensures HeldSinceHeard(Run(s, actions))
    decreases |actions|
  {
    if actions != [] {
      StepKeepsHeld(s, actions[0]);
      StepKeepsInv(s, actions[0]);
      RunKeepsHeld(Apply(s, actions[0]), actions[1..]);
    }
  }

  /** While the call is unfinished the clock stays within 30 seconds of the owner's last sign. */
  ghost predicate HeardInTime(s: State, actions: seq<Action>)
    decreases |actions|
  {
    && (s.row.Some? && !s.row.value.Terminal() ==> s.clock < s.heard + 30_000)
    && (actions != [] ==> HeardInTime(Apply(s, actions[0]), actions[1..]))
  }

  lemma {:induction false} HeardMeansHeld(s: State, actions: seq<Action>)
    requires Inv(s) && HeldSinceHeard(s) && HeardInTime(s, actions)
    ensures LeaseAlwaysHolds(s, actions)
    decreases |actions|
  {
    if s.row.Some? && !s.row.value.Terminal() {
      assert Observe(s.row, s.row.value.request, s.clock) == Wait;
    }
    if actions != [] {
      StepKeepsHeld(s, actions[0]);
      StepKeepsInv(s, actions[0]);
      HeardMeansHeld(Apply(s, actions[0]), actions[1..]);
    }
  }

  /** So an executor whose heartbeats keep getting through is never doubled: as long as one is
      committed at least every 30 seconds the tool is started at most once, and nothing is
      assumed about leases. */
  lemma HeartbeatsKeepTheCall(clock: int, actions: seq<Action>)
    requires HeardInTime(Initial(clock), actions)
    ensures var s := Run(Initial(clock), actions); s.toolRuns == (if s.row.Some? then 1 else 0)
  {
    HeardMeansHeld(Initial(clock), actions);
    ToolRunsOnceWithoutExpiry(clock, actions);
  }

  lemma {:induction false} RunAppend(s: State, actions: seq<Action>, a: Action)
    ensures Run(s, actions + [a]) == Apply(Run(s, actions), a)
    decreases |actions|
  {
    if actions == [] {
      assert actions + [a] == [a] && [a][1..] == [];
      assert Run(s, [a]) == Run(Apply(s, a), []);
    } else {
      assert (actions + [a])[1..] == actions[1..] + [a];
      RunAppend(Apply(s, actions[0]), actions[1..], a);
    }
  }

  lemma More(s: State, actions: seq<Action>, a: Action) returns (longer: seq<Action>)
    ensures longer == actions + [a] && Run(s, longer) == Apply(Run(s, actions), a)
  {
    RunAppend(s, actions, a);
    longer := actions + [a];
  }

  // ---------------------------------------------------------------- when the tool runs again

  predicate Tickless(actions: seq<Action>) {
    forall a | a in actions :: !a.Tick?
  }

  /** Nobody can claim the row now: it is finished, or its lease has not run out. */
  predicate Guarded(s: State) {
    s.row.Some? && (s.row.value.lease.Some? ==> s.clock < s.row.value.lease.value)
  }

  lemma StepKeepsGuarded(s: State, a: Action)
    requires Inv(s) && Guarded(s) && !a.Tick?
    ensures Guarded(Apply(s, a)) && Apply(s, a).toolRuns == s.toolRuns
  {
    StepMoves(s, a);
    if !a.Arrive? && a.id in s.executors { assert ExecutorOk(s, a.id); }
  }

  lemma {:induction false} GuardedRunsNoTool(s: State, actions: seq<Action>)
    requires Inv(s) && Guarded(s) && Tickless(actions)
    ensures Run(s, actions).toolRuns == s.toolRuns
    decreases |actions|
  {
    if actions != [] {
      StepKeepsInv(s, actions[0]);
      StepKeepsGuarded(s, actions[0]);
      GuardedRunsNoTool(Apply(s, actions[0]), actions[1..]);
    }
  }

  lemma {:induction false} UnusedClaimant(ids: set<Claimant>) returns (id: Claimant)
    ensures id !in ids && forall other | other in ids :: other < id
    decreases |ids|
  {
    if ids == {} {
      id := 0;
    } else {
      var some :| some in ids;
      var rest := UnusedClaimant(ids - {some});
      id := if some < rest then rest else some + 1;
      forall other | other in ids ensures other < id {
        if other != some { assert other in ids - {some}; }
      }
    }
  }

  /** A further executor with the row's own request takes an expired row over at once. */
  lemma ExpiredRunsAgain(s: State) returns (actions: seq<Action>)
    requires Inv(s) && s.row.Some? && !s.row.value.Terminal()
    requires s.row.value.lease.value <= s.clock
    ensures Tickless(actions) && Run(s, actions).toolRuns == s.toolRuns + 1
  {
    var id := UnusedClaimant(s.executors.Keys);
    actions := More(s, [], Arrive(id, s.row.value.request));
    actions := More(s, actions, Look(id));
    assert Run(s, actions).executors[id].pc == Claiming(s.row.value.lease, s.clock, s.touches);
    actions := More(s, actions, TryClaim(id));
  }

  /** With a call under way and before any more time passes, the tool can be started again
      exactly when the lease of the row has run out. */
  lemma ToolMayRunAgainExactly(s: State)
    requires Inv(s) && s.row.Some? && !s.row.value.Terminal()
    ensures s.row.value.lease.Some?
    ensures (exists actions :: Tickless(actions) && Run(s, actions).toolRuns > s.toolRuns)
      <==> s.row.value.lease.value <= s.clock
  {
    if s.row.value.lease.value <= s.clock {
      var again := ExpiredRunsAgain(s);
      assert Tickless(again) && Run(s, again).toolRuns > s.toolRuns;
    } else {
      forall actions | Tickless(actions) ensures Run(s, actions).toolRuns == s.toolRuns {
        GuardedRunsNoTool(s, actions);
      }
    }
  }

  /** So the tool can run twice: its first run outlasts the lease that nobody renewed. */
  lemma ToolMayRunTwiceAfterExpiry(r: Request)
    ensures exists actions :: Run(Initial(0), actions).toolRuns == 2
  {
    var first := More(Initial(0), [], Arrive(0, r));
    first := More(Initial(0), first, Look(0));
    first := More(Initial(0), first, TryInsert(0));
    first := More(Initial(0), first, Tick(LEASE));
    var s := Run(Initial(0), first);
    RunKeepsInv(Initial(0), first);
    var again := ExpiredRunsAgain(s);
    RunConcat(Initial(0), first, again);
    assert Run(Initial(0), first + again).toolRuns == 2;
  }

  lemma {:induction false} RunConcat(s: State, first: seq<Action>, second: seq<Action>)
    ensures Run(s, first + second) == Run(Run(s, first), second)
    decreases |first|
  {
    if first == [] {
      assert first + second == second;
    } else {
      assert (first + second)[1..] == first[1..] + second;
      RunConcat(Apply(s, first[0]), first[1..], second);
    }
  }
}
