/**
 One follow-up, any number of workers dispatching it, user messages arriving at any moment,
 and the agent wake that each worker runs, in any interleaving.  A disabled action leaves the
 state alone, so every sequence of actions is a run.
 */
module FollowUpProtocol {
  import opened Options
  import opened FollowUps

  type Worker = nat

  /** Where a worker is inside `dispatch_due_follow_up` and the wake it runs. */
  datatype Pc =
    | Claiming          // claimed, has not yet looked for a newer message
    | Cancelling        // about to cancel the row
    | Waiting           // allowed to run, waiting for the conversation lock
    | Starting          // holds the lock, found no stored turn
    | Thinking          // passed the first guard, the model is running
    | Delivering        // the turn is stored
    | Failing           // about to put the row back for a retry
    | Done

  datatype State = State(
    clock: int,
    row: FollowUp,
    newer: bool,                 // an inbound message newer than the follow-up is stored
    optedOut: bool,
    reply: Option<Worker>,       // who stored the turn for this follow-up
    lock: Option<Worker>,        // the conversation turn lock
    workers: map<Worker, Pc>)

  datatype Action =
    | Tick(elapsed: nat)
    | OptOut
    | Inbound(createdAt: int)
    | Claim(worker: Worker, maxAttempts: nat)
    | By(actor: Worker, move: Move)

  /** The steps of a worker that has claimed the follow-up. */
  datatype Move =
    | Check
    | Cancel
    | Decline            // no channel, or delivery switched off
    | Lock
    | FirstGuard
    | Store
    | Complete
    | Fail
    | Retry
    | Crash

  function Initial(clock: int, row: FollowUp): State {
    State(clock, row, false, false, None, None, map[])
  }

  predicate ShouldCancel(s: State) {
    s.optedOut || (s.row.cancellable && s.newer)
  }

  predicate LockHeld(pc: Pc) { pc == Starting || pc == Thinking }

  /** Where a move takes its worker; a move that does not fit leaves it where it is. */
  function NextPc(s: State, move: Move, pc: Pc): Pc {
    match move
    case Check => if pc != Claiming then pc else if ShouldCancel(s) then Cancelling else Waiting
    case Cancel => if pc == Cancelling then Done else pc
    case Decline => if pc == Waiting then Cancelling else pc
    case Lock => if pc != Waiting || s.lock.Some? then pc else if s.reply.Some? then Delivering else Starting
    case FirstGuard => if pc != Starting then pc else if s.row.status == Cancelled then Cancelling else Thinking
    case Store =>
      if pc != Thinking then pc
      else if s.row.status == Cancelled then Cancelling
      else if s.reply.Some? then Failing
      else Delivering
    case Complete => if pc == Delivering then Done else pc
    case Fail => if pc == Done then pc else Failing
    case Retry => if pc == Failing then Done else pc
    case Crash => Done
  }

  function NextRow(s: State, move: Move, pc: Pc): FollowUp {
    if move == Cancel && pc == Cancelling then CancelledBy(s.row)
    else if move == Complete && pc == Delivering then Finished(s.row)
    else if move == Retry && pc == Failing then Retried(s.row, s.clock)
    else s.row
  }

  /** The second guard and the insert of the turn are one transaction. */
  predicate Stores(s: State, move: Move, pc: Pc) {
    move.Store? && pc == Thinking && s.row.status != Cancelled && s.reply.None?
  }

  function Moved(s: State, w: Worker, move: Move, pc: Pc): State {
    var next := NextPc(s, move, pc);
    s.(workers := s.workers[w := next],
       row := NextRow(s, move, pc),
       lock := if LockHeld(next) then Some(w) else if s.lock == Some(w) then None else s.lock,
       reply := if Stores(s, move, pc) then Some(w) else s.reply)
  }

  function Apply(s: State, a: Action): State {
    match a
    case Tick(elapsed) => s.(clock := s.clock + elapsed)
    case OptOut => s.(optedOut := true)
    case Inbound(createdAt) =>
      s.(newer := s.newer || createdAt > s.row.createdAt, row := CancelledByMessage(s.row, s.row.conversation))
    case Claim(w, maxAttempts) =>
      if w in s.workers || !Eligible(s.row, s.clock, maxAttempts) then s
      else s.(workers := s.workers[w := Claiming], row := Claimed(s.row, s.clock))
    case By(w, move) =>
      if w in s.workers then Moved(s, w, move, s.workers[w]) else s
  }

  function Run(s: State, actions: seq<Action>): State
    decreases |actions|
  {
    if actions == [] then s else Run(Apply(s, actions[0]), actions[1..])
  }

  // ---------------------------------------------------------------- all runs, takeovers included

  /** Once cancelled, always cancelled, and nothing about the row changes any more. */
  lemma {:induction false} CancelledIsForever(s: State, actions: seq<Action>)
    requires s.row.status == Cancelled && s.row.lockedAt.None?
    ensures Run(s, actions).row == s.row
    decreases |actions|
  {
    if actions != [] { CancelledIsForever(Apply(s, actions[0]), actions[1..]); }
  }

  ghost predicate ClaimsUseLimit(actions: seq<Action>, maxAttempts: nat) {
    forall a | a in actions && a.Claim? :: a.maxAttempts == maxAttempts
  }

  /** The worker never makes more attempts than allowed, and no other step counts one. */
  lemma {:induction false} AttemptsAreBounded(s: State, actions: seq<Action>, maxAttempts: nat)
    requires s.row.attempts <= maxAttempts && ClaimsUseLimit(actions, maxAttempts)
    ensures s.row.attempts <= Run(s, actions).row.attempts <= maxAttempts
    decreases |actions|
  {
    if actions != [] {
      assert actions[0] in actions && forall a | a in actions[1..] :: a in actions;
      AttemptsAreBounded(Apply(s, actions[0]), actions[1..], maxAttempts);
    }
  }

  ghost predicate LockOk(s: State) {
    && (forall w | w in s.workers && LockHeld(s.workers[w]) :: s.lock == Some(w))
    && (s.lock.Some? ==> s.lock.value in s.workers && LockHeld(s.workers[s.lock.value]) && s.reply.None?)
  }

  lemma StepKeepsLock(s: State, a: Action)
    requires LockOk(s)
    ensures LockOk(Apply(s, a))
  {
  }

  /** The turn is stored at most once, by the worker holding the lock, and stays: an attempt
      after it only delivers it again. */
  lemma {:induction false} ReplyStoredOnce(s: State, actions: seq<Action>)
    requires LockOk(s)
    ensures LockOk(Run(s, actions))
    ensures s.reply.Some? ==> Run(s, actions).reply == s.reply
    decreases |actions|
  {
    if actions != [] {
      StepKeepsLock(s, actions[0]);
      ReplyStoredOnce(Apply(s, actions[0]), actions[1..]);
    }
  }

  /** Once the row is cancelled no turn is stored for it any more. */
  lemma {:induction false} CancelledNeverReplies(s: State, actions: seq<Action>)
    requires s.row.status == Cancelled && s.reply.None?
    ensures Run(s, actions).reply.None?
    decreases |actions|
  {
    if actions != [] { CancelledNeverReplies(Apply(s, actions[0]), actions[1..]); }
  }

  /** The row is completed, and a worker delivers, only once the turn is stored. */
  ghost predicate RepliedOk(s: State) {
    && (s.row.status == Completed ==> s.reply.Some?)
    && (forall w | w in s.workers && s.workers[w] == Delivering :: s.reply.Some?)
  }

  lemma {:induction false} CompletedMeansReplied(s: State, actions: seq<Action>)
    requires RepliedOk(s)
    ensures RepliedOk(Run(s, actions))
    decreases |actions|
  {
    if actions != [] { CompletedMeansReplied(Apply(s, actions[0]), actions[1..]); }
  }

  /** A message counts as newer exactly when it is from after the follow-up was made, and cancels a
      live row that messages may cancel. */
  lemma MessagesCancel(s: State, createdAt: int)
    ensures var t := Apply(s, Inbound(createdAt));
      && (t.newer <==> s.newer || s.row.createdAt < createdAt)
      && t.row == (if s.row.cancellable && (s.row.status == Pending || s.row.status == Processing)
                   then s.row.(status := Cancelled, lockedAt := None) else s.row)
      && t == s.(newer := t.newer, row := t.row)
    ensures Apply(s, OptOut) == s.(optedOut := true)
  {
  }

  // ---------------------------------------------------------------- how a dispatch goes

  /** A worker can dispatch the row now. */
  predicate CanDispatch(s: State, w: Worker, maxAttempts: nat) {
    w !in s.workers && s.row.attempts < maxAttempts && DueOrStale(s.row, s.clock) && s.lock.None?
  }

  /** It begins with a claim and the check, and waits for the conversation. */
  lemma DispatchBegins(s: State, w: Worker, maxAttempts: nat)
    requires CanDispatch(s, w, maxAttempts) && !s.optedOut && !(s.row.cancellable && s.newer)
    ensures var run := [Claim(w, maxAttempts), By(w, Check), By(w, Lock)];
      Run(s, run) == s.(
        row := s.row.(status := Processing, lockedAt := Some(s.clock), attempts := s.row.attempts + 1),
        workers := s.workers[w := if s.reply.None? then Starting else Delivering],
        lock := if s.reply.None? then Some(w) else None)
  {
    var run := More(s, [], Claim(w, maxAttempts));
    run := More(s, run, By(w, Check));
    var waiting := Run(s, run);
    assert waiting.workers == s.workers[w := Waiting];
    run := More(s, run, By(w, Lock));
    assert run == [Claim(w, maxAttempts), By(w, Check), By(w, Lock)];
    assert Run(s, run).workers == s.workers[w := if s.reply.None? then Starting else Delivering];
  }

  lemma StoresAndCompletes(s: State, w: Worker)
    requires w in s.workers && s.workers[w] == Starting && s.lock == Some(w)
    requires s.row.status == Processing && s.reply.None?
    ensures var t := Run(s, [By(w, FirstGuard), By(w, Store), By(w, Complete)]);
      && t.row == s.row.(status := Completed, lockedAt := None)
      && t.reply == Some(w) && t.lock.None? && w in t.workers && t.workers[w] == Done
  {
    var run := More(s, [], By(w, FirstGuard));
    run := More(s, run, By(w, Store));
    run := More(s, run, By(w, Complete));
  }

  lemma FailsAndRetries(s: State, w: Worker)
    requires w in s.workers && (s.workers[w] == Starting || s.workers[w] == Delivering)
    requires s.row.status == Processing && (s.lock.Some? ==> s.lock == Some(w))
    ensures var t := Run(s, [By(w, Fail), By(w, Retry)]);
      && t.row == s.row.(status := Failed, lockedAt := None, dueAt := s.clock + Backoff(s.row.attempts))
      && t.reply == s.reply && t.lock.None? && w in t.workers && t.workers[w] == Done
  {
    var run := More(s, [], By(w, Fail));
    run := More(s, run, By(w, Retry));
  }

  /** Undisturbed, a dispatch stores the turn and completes the row. */
  lemma DispatchCompletes(s: State, w: Worker, maxAttempts: nat)
    requires CanDispatch(s, w, maxAttempts) && !s.optedOut && !(s.row.cancellable && s.newer) && s.reply.None?
    ensures var t := Run(s, [Claim(w, maxAttempts), By(w, Check), By(w, Lock)]
          + [By(w, FirstGuard), By(w, Store), By(w, Complete)]);
      && t.row == s.row.(status := Completed, lockedAt := None, attempts := s.row.attempts + 1)
      && t.reply == Some(w) && t.lock.None? && w in t.workers && t.workers[w] == Done
  {
    DispatchBegins(s, w, maxAttempts);
    var begun := [Claim(w, maxAttempts), By(w, Check), By(w, Lock)];
    StoresAndCompletes(Run(s, begun), w);
    RunSplit(s, begun, [By(w, FirstGuard), By(w, Store), By(w, Complete)]);
  }

  /** When an earlier attempt has stored the turn, it only delivers that one again. */
  lemma DispatchDeliversAgain(s: State, w: Worker, maxAttempts: nat)
    requires CanDispatch(s, w, maxAttempts) && !s.optedOut && !(s.row.cancellable && s.newer) && s.reply.Some?
    ensures var t := Run(s, [Claim(w, maxAttempts), By(w, Check), By(w, Lock)] + [By(w, Complete)]);
      && t.row == s.row.(status := Completed, lockedAt := None, attempts := s.row.attempts + 1)
      && t.reply == s.reply && t.lock.None? && w in t.workers && t.workers[w] == Done
  {
    DispatchBegins(s, w, maxAttempts);
    var run := More(s, [Claim(w, maxAttempts), By(w, Check), By(w, Lock)], By(w, Complete));
  }

  /** A worker that finds the user opted out or a newer message cancels the row, and one whose
      delivery is off does so too; nothing is stored. */
  lemma DispatchCancels(s: State, w: Worker, maxAttempts: nat)
    requires CanDispatch(s, w, maxAttempts)
    ensures var declines := if s.optedOut || (s.row.cancellable && s.newer) then [] else [By(w, Decline)];
      var t := Run(s, [Claim(w, maxAttempts), By(w, Check)] + declines + [By(w, Cancel)]);
      && t.row == s.row.(status := Cancelled, lockedAt := None, attempts := s.row.attempts + 1)
      && t.reply == s.reply && t.lock.None? && w in t.workers && t.workers[w] == Done
  {
    var run := More(s, [], Claim(w, maxAttempts));
    run := More(s, run, By(w, Check));
    if s.optedOut || (s.row.cancellable && s.newer) {
      run := More(s, run, By(w, Cancel));
      assert run == [Claim(w, maxAttempts), By(w, Check)] + [] + [By(w, Cancel)];
    } else {
      run := More(s, run, By(w, Decline));
      run := More(s, run, By(w, Cancel));
      assert run == [Claim(w, maxAttempts), By(w, Check)] + [By(w, Decline)] + [By(w, Cancel)];
    }
  }

  /** A failing dispatch puts the row back with its backoff and lets go of the lock. */
  lemma DispatchFails(s: State, w: Worker, maxAttempts: nat)
    requires CanDispatch(s, w, maxAttempts) && !s.optedOut && !(s.row.cancellable && s.newer)
    ensures var t := Run(s, [Claim(w, maxAttempts), By(w, Check), By(w, Lock)] + [By(w, Fail), By(w, Retry)]);
      && t.row == s.row.(status := Failed, lockedAt := None, attempts := s.row.attempts + 1,
                         dueAt := s.clock + Backoff(s.row.attempts + 1))
      && t.reply == s.reply && t.lock.None? && w in t.workers && t.workers[w] == Done
  {
    DispatchBegins(s, w, maxAttempts);
    var begun := [Claim(w, maxAttempts), By(w, Check), By(w, Lock)];
    FailsAndRetries(Run(s, begun), w);
    RunSplit(s, begun, [By(w, Fail), By(w, Retry)]);
  }

  /** A crashed one leaves the row locked for the next worker to take over. */
  lemma DispatchCrashes(s: State, w: Worker, maxAttempts: nat)
    requires CanDispatch(s, w, maxAttempts) && !s.optedOut && !(s.row.cancellable && s.newer)
    ensures var t := Run(s, [Claim(w, maxAttempts), By(w, Check), By(w, Lock)] + [By(w, Crash)]);
      && t.row == s.row.(status := Processing, lockedAt := Some(s.clock), attempts := s.row.attempts + 1)
      && t.reply == s.reply && t.lock.None? && w in t.workers && t.workers[w] == Done
  {
    DispatchBegins(s, w, maxAttempts);
    var run := More(s, [Claim(w, maxAttempts), By(w, Check), By(w, Lock)], By(w, Crash));
  }

  /** A worker ends only by cancelling, completing, putting the row back or crashing. */
  lemma OnlyFourWaysToEnd(s: State, a: Action, w: Worker)
    requires w in s.workers && s.workers[w] != Done && Apply(s, a).workers[w] == Done
    ensures
      || a == By(w, Crash)
      || (a == By(w, Cancel) && s.workers[w] == Cancelling && Apply(s, a).row == CancelledBy(s.row))
      || (a == By(w, Complete) && s.workers[w] == Delivering && Apply(s, a).row == Finished(s.row))
      || (a == By(w, Retry) && s.workers[w] == Failing && Apply(s, a).row == Retried(s.row, s.clock))
  {
  }

  /** And the row changes only by a claim, a message, or one of these. */
  lemma RowChangesOnlyByThese(s: State, a: Action)
    requires Apply(s, a).row != s.row
    ensures
      || a.Inbound? || a.Claim?
      || (a.By? && a.move != Crash && a.actor in s.workers
          && s.workers[a.actor] != Done && Apply(s, a).workers[a.actor] == Done)
  {
  }

  // ---------------------------------------------------------------- nothing runs before it is due

  /** The row has not been claimed since it had `attempts`, and is not due before `due`. */
  ghost predicate WaitsUntil(s: State, attempts: nat, due: int) {
    && s.row.attempts == attempts && s.row.status != Processing
    && (s.row.status == Pending || s.row.status == Failed ==> due <= s.row.dueAt)
    && (s.workers == map[] || due <= s.clock + Backoff(attempts))
  }

  lemma StepWaits(s: State, a: Action, attempts: nat, due: int)
    requires WaitsUntil(s, attempts, due)
    ensures s.clock <= Apply(s, a).clock
    ensures WaitsUntil(Apply(s, a), attempts, due) || due <= s.clock
  {
  }

  lemma {:induction false} ClockOnlyGrows(s: State, actions: seq<Action>)
    ensures s.clock <= Run(s, actions).clock
    decreases |actions|
  {
    if actions != [] { ClockOnlyGrows(Apply(s, actions[0]), actions[1..]); }
  }

  lemma {:induction false} RunWaits(s: State, actions: seq<Action>, attempts: nat, due: int)
    requires WaitsUntil(s, attempts, due)
    ensures Run(s, actions).row.attempts == attempts || due <= Run(s, actions).clock
    decreases |actions|
  {
    if actions != [] {
      StepWaits(s, actions[0], attempts, due);
      if WaitsUntil(Apply(s, actions[0]), attempts, due) {
        RunWaits(Apply(s, actions[0]), actions[1..], attempts, due);
      } else {
        ClockOnlyGrows(s, actions);
      }
    }
  }

  /** A scheduled follow-up is never claimed before its delay has passed: the proposed one, kept
      between the least and the greatest. */
  lemma ScheduledWaits(table: map<Id, FollowUp>, id: Id, conversation: Id, source: Id, proposal: Proposal,
        depth: nat, settings: Settings, now: int, actions: seq<Action>)
    requires id !in table && id in Scheduled(table, id, conversation, source, Some(proposal), depth, settings, now)
    ensures var row := Scheduled(table, id, conversation, source, Some(proposal), depth, settings, now)[id];
      var waited := Run(Initial(now, row), actions).clock - now;
      Run(Initial(now, row), actions).row.attempts > 0 ==>
        && settings.minDelay <= waited && (proposal.dueAfter <= waited || settings.maxDelay <= waited)
  {
    var row := Scheduled(table, id, conversation, source, Some(proposal), depth, settings, now)[id];
    RunWaits(Initial(now, row), actions, 0, row.dueAt);
  }

  /** A follow-up that failed waits out its backoff, whatever other workers do meanwhile. */
  lemma FailedWaits(s: State, w: Worker, actions: seq<Action>)
    requires w in s.workers && s.workers[w] == Failing && s.row.status != Cancelled
    ensures var failed := Apply(s, By(w, Retry)); var t := Run(failed, actions);
      && failed.row.status == Failed && failed.row.attempts == s.row.attempts
      && (t.row.attempts > s.row.attempts ==> s.clock + Backoff(s.row.attempts) <= t.clock)
  {
    RunWaits(Apply(s, By(w, Retry)), actions, s.row.attempts, s.clock + Backoff(s.row.attempts));
  }

  // ---------------------------------------------------------------- runs without a takeover

  predicate NoTakeover(s: State, a: Action) {
    a.Claim? ==> !TakesOver(s.row, s.clock)
  }

  ghost predicate NeverTakesOver(s: State, actions: seq<Action>)
    decreases |actions|
  {
    actions != [] ==> NoTakeover(s, actions[0]) && NeverTakesOver(Apply(s, actions[0]), actions[1..])
  }

  predicate Active(pc: Pc) { pc != Done }

  /** May still store a turn without looking for newer messages again. */
  predicate PastCheck(pc: Pc) {
    pc == Waiting || pc == Starting || pc == Thinking
  }

  /** Only one worker is inside a dispatch, and while it is, the row is processing or cancelled. */
  ghost predicate Sole(s: State) {
    forall w | w in s.workers && Active(s.workers[w]) ::
      && (s.row.status == Processing || s.row.status == Cancelled)
      && (forall v | v in s.workers && Active(s.workers[v]) :: v == w)
  }

  /** Past the point where a newer message would have been noticed, the row is cancelled. */
  ghost predicate Safe(s: State) {
    s.row.cancellable && s.newer && s.row.status != Cancelled ==>
      forall w | w in s.workers :: !PastCheck(s.workers[w])
  }

  ghost predicate Inv(s: State) { Sole(s) && Safe(s) }

  /** Only a claim activates a worker, and a row leaves the two live states only at the hands
      of a worker that is done with it afterwards. */
  lemma StepShape(s: State, a: Action)
    ensures var t := Apply(s, a);
      && (forall w | w in s.workers :: w in t.workers && (Active(t.workers[w]) ==> Active(s.workers[w])))
      && (forall w | w in t.workers && w !in s.workers ::
            a.Claim? && a.worker == w && t.row == Claimed(s.row, s.clock) && Eligible(s.row, s.clock, a.maxAttempts))
      && (t.row.status != s.row.status && t.row.status != Processing && t.row.status != Cancelled ==>
            a.By? && a.actor in s.workers && Active(s.workers[a.actor]) && !Active(t.workers[a.actor]))
  {
  }

  lemma StepKeepsSole(s: State, a: Action)
    requires Sole(s) && NoTakeover(s, a)
    ensures Sole(Apply(s, a))
  {
    StepShape(s, a);
  }

  lemma StepKeepsSafe(s: State, a: Action)
    requires Sole(s) && Safe(s) && NoTakeover(s, a)
    ensures Safe(Apply(s, a))
  {
    var t := Apply(s, a);
    forall w | w in t.workers && t.row.cancellable && t.newer && t.row.status != Cancelled
      ensures !PastCheck(t.workers[w])
    {
      if w in s.workers && PastCheck(t.workers[w]) {
        assert Active(s.workers[w]);
      }
    }
  }

  lemma StepKeepsInv(s: State, a: Action)
    requires Inv(s) && NoTakeover(s, a)
    ensures Inv(Apply(s, a))
    ensures s.row.cancellable && s.newer && s.reply.None? ==> Apply(s, a).reply.None?
    ensures s.newer ==> Apply(s, a).newer
    ensures Apply(s, a).row.cancellable == s.row.cancellable
  {
    StepKeepsSole(s, a);
    StepKeepsSafe(s, a);
  }

  lemma {:induction false} RunKeepsInv(s: State, actions: seq<Action>)
    requires Inv(s) && NeverTakesOver(s, actions)
    ensures Inv(Run(s, actions))
    ensures s.row.cancellable && s.newer && s.reply.None? ==> Run(s, actions).reply.None?
    decreases |actions|
  {
    if actions != [] {
      StepKeepsInv(s, actions[0]);
      RunKeepsInv(Apply(s, actions[0]), actions[1..]);
    }
  }

  lemma {:induction false} RunSplit(s: State, before: seq<Action>, after: seq<Action>)
    ensures Run(s, before + after) == Run(Run(s, before), after)
    ensures NeverTakesOver(s, before + after) ==> NeverTakesOver(s, before) && NeverTakesOver(Run(s, before), after)
    decreases |before|
  {
    if before == [] {
      assert before + after == after;
    } else {
      assert (before + after)[1..] == before[1..] + after;
      RunSplit(Apply(s, before[0]), before[1..], after);
    }
  }

  // ---------------------------------------------------------------- replies after a message

  /** Some continuation stores a turn. */
  ghost predicate CanReply(s: State) {
    exists actions :: Run(s, actions).reply.Some?
  }

  /** The row is not cancelled, and a worker has already looked for newer messages. */
  predicate ReplyUnderWay(s: State) {
    s.row.status != Cancelled && exists w :: w in s.workers && PastCheck(s.workers[w])
  }

  /** A newer message is stored and nobody is past the check: every later check will see it. */
  predicate Stopped(s: State) {
    s.row.cancellable && s.newer && s.reply.None? && !ReplyUnderWay(s)
  }

  lemma StepStaysStopped(s: State, a: Action)
    requires Stopped(s)
    ensures Stopped(Apply(s, a))
  {
    var t := Apply(s, a);
    forall w | w in t.workers && t.row.status != Cancelled ensures !PastCheck(t.workers[w]) {
      if w in s.workers { assert s.row.status != Cancelled && !PastCheck(s.workers[w]); }
    }
  }

  lemma {:induction false} StaysStopped(s: State, actions: seq<Action>)
    requires Stopped(s)
    ensures Stopped(Run(s, actions))
    decreases |actions|
  {
    if actions != [] {
      StepStaysStopped(s, actions[0]);
      StaysStopped(Apply(s, actions[0]), actions[1..]);
    }
  }

  /** A worker past the check walks through the lock and both guards. */
  lemma WalksToTheReply(s: State, w: Worker) returns (actions: seq<Action>)
    requires s.row.status != Cancelled && s.reply.None? && w in s.workers && PastCheck(s.workers[w])
    requires s.workers[w] == Waiting ==> s.lock.None?
    ensures Run(s, actions).reply == Some(w)
    decreases if s.workers[w] == Waiting then 2 else if s.workers[w] == Starting then 1 else 0
  {
    var move := if s.workers[w] == Waiting then Lock else if s.workers[w] == Starting then FirstGuard else Store;
    var t := Apply(s, By(w, move));
    if s.workers[w] == Thinking {
      actions := [By(w, move)];
      assert actions[1..] == [];
      assert Run(s, actions) == t;
    } else {
      var rest := WalksToTheReply(t, w);
      actions := [By(w, move)] + rest;
      assert actions[1..] == rest;
    }
  }

  /** Once a newer user message is stored, takeovers included: a turn can still be stored
      exactly when the row is not cancelled and some worker is already past its check. */
  lemma ReplyIsStillPossibleExactly(s: State)
    requires LockOk(s) && s.row.cancellable && s.newer && s.reply.None?
    ensures CanReply(s) <==> ReplyUnderWay(s)
  {
    if ReplyUnderWay(s) {
      var w :| w in s.workers && PastCheck(s.workers[w]);
      var actions := WalksToTheReply(s, if s.lock.Some? then s.lock.value else w);
    } else if CanReply(s) {
      var actions :| Run(s, actions).reply.Some?;
      StaysStopped(s, actions);
    }
  }

  /** The message itself cancels a live row.  So a turn can follow it exactly when, as it comes
      in, the row is failed or completed while some worker is past its check. */
  lemma MessageStopsTheReplyExactly(s: State, createdAt: int)
    requires LockOk(s) && s.row.cancellable && createdAt > s.row.createdAt && s.reply.None?
    ensures CanReply(Apply(s, Inbound(createdAt))) <==>
              (s.row.status == Failed || s.row.status == Completed) && ReplyUnderWay(s)
  {
    StepKeepsLock(s, Inbound(createdAt));
    ReplyIsStillPossibleExactly(Apply(s, Inbound(createdAt)));
  }

  /** Follow-up safety: when no stale lock is taken over, a turn that was not stored before a
      newer user message arrived is never stored after it. */
  lemma NoReplyAfterNewerMessage(clock: int, row: FollowUp, before: seq<Action>, createdAt: int, after: seq<Action>)
    requires row.status == Pending && row.cancellable && createdAt > row.createdAt
    requires NeverTakesOver(Initial(clock, row), before)
    requires Run(Initial(clock, row), before).reply.None?
    ensures Run(Initial(clock, row), before + [Inbound(createdAt)] + after).reply.None?
  {
    var s0 := Initial(clock, row);
    var s1 := Run(s0, before);
    RunKeepsInv(s0, before);
    RunKeepsFields(s0, before);
    ReplyStoredOnce(s0, before);
    MessageStopsTheReplyExactly(s1, createdAt);
    RunSplit(s0, before + [Inbound(createdAt)], after);
    RunAppend(s0, before, Inbound(createdAt));
  }

  // ---------------------------------------------------------------- completed rows

  /** Some continuation moves the row out of the completed state. */
  ghost predicate CanLeaveCompleted(s: State) {
    exists actions :: Run(s, actions).row.status != Completed
  }

  predicate SomeoneActive(s: State) { exists w :: w in s.workers && Active(s.workers[w]) }

  lemma {:induction false} CompletedAndIdleStays(s: State, actions: seq<Action>)
    requires s.row.status == Completed && !SomeoneActive(s)
    ensures Run(s, actions).row.status == Completed
    decreases |actions|
  {
    if actions != [] {
      StepShape(s, actions[0]);
      CompletedAndIdleStays(Apply(s, actions[0]), actions[1..]);
    }
  }

  /** A completed follow-up is final exactly when no worker is still active on it: one that is
      can fail and put the row back to failed.  Where the invariant holds that every run without
      a takeover keeps, there is none. */
  lemma CompletedIsFinalExactly(s: State)
    requires s.row.status == Completed
    ensures !CanLeaveCompleted(s) <==> !SomeoneActive(s)
    ensures Inv(s) ==> !CanLeaveCompleted(s)
  {
    if SomeoneActive(s) {
      var w :| w in s.workers && Active(s.workers[w]);
      var failing := More(s, [], By(w, Fail));
      var actions := More(s, failing, By(w, Retry));
      assert Run(s, actions).row.status == Failed;
    } else if CanLeaveCompleted(s) {
      var actions :| Run(s, actions).row.status != Completed;
      CompletedAndIdleStays(s, actions);
    }
  }

  lemma StepKeepsFields(s: State, a: Action)
    ensures Apply(s, a).row.createdAt == s.row.createdAt && Apply(s, a).row.cancellable == s.row.cancellable
  {
  }

  lemma {:induction false} RunKeepsFields(s: State, actions: seq<Action>)
    ensures Run(s, actions).row.createdAt == s.row.createdAt && Run(s, actions).row.cancellable == s.row.cancellable
    decreases |actions|
  {
    if actions != [] {
      StepKeepsFields(s, actions[0]);
      RunKeepsFields(Apply(s, actions[0]), actions[1..]);
    }
  }

  lemma {:induction false} RunAppend(s: State, actions: seq<Action>, a: Action)
    ensures Run(s, actions + [a]) == Apply(Run(s, actions), a)
    decreases |actions|
  {
    if actions == [] {
      assert actions + [a] == [a] && [a][1..] == [];
      assert Run(s, [a]) == Run(Apply(s, a), []);
    } else {
      assert (actions + [a])[1..] == actions[1..] + [a];
      RunAppend(Apply(s, actions[0]), actions[1..], a);
    }
  }

  /** The first worker is thinking when the second one takes the stale lock over. */
  lemma TakenOver(row: FollowUp) returns (run: seq<Action>)
    requires row.status == Pending && row.cancellable && row.attempts == 0 && row.dueAt <= 0 && row.createdAt == 0
    ensures Run(Initial(0, row), run) == State(STALE_LOCK, Claimed(Claimed(row, 0), STALE_LOCK),
      false, false, None, Some(0), map[0 := Thinking, 1 := Claiming])
  {
    var s0 := Initial(0, row);
    run := [];
    run := More(s0, run, Claim(0, 5));
    run := More(s0, run, By(0, Check));
    run := More(s0, run, By(0, Lock));
    run := More(s0, run, By(0, FirstGuard));
    run := More(s0, run, Tick(STALE_LOCK));
    run := More(s0, run, Claim(1, 5));
    assert Run(s0, run).workers == map[0 := Thinking, 1 := Claiming];
  }

  /** With a takeover it can go wrong: the second worker fails, so the message finds the row
      failed rather than processing, and the first worker stores its turn after all. */
  lemma TakeoverCanReplyAfterMessage(row: FollowUp)
    requires row.status == Pending && row.cancellable && row.attempts == 0 && row.dueAt <= 0 && row.createdAt == 0
    ensures exists before, after ::
      Run(Initial(0, row), before).reply.None? && Run(Initial(0, row), before + [Inbound(1)] + after).reply.Some?
  {
    var s0 := Initial(0, row);
    var before := TakenOver(row);
    before := More(s0, before, By(1, Fail));
    before := More(s0, before, By(1, Retry));
    assert Run(s0, before).row.status == Failed;
    var notified := More(s0, before, Inbound(1));
    assert Run(s0, notified).row.status == Failed && Run(s0, notified).workers[0] == Thinking;
    var all := More(s0, notified, By(0, Store));
    assert all == before + [Inbound(1)] + [By(0, Store)];
  }

  /** Likewise the first worker completes the row and the second one then fails it. */
  lemma TakeoverCanFailACompletedRow(row: FollowUp)
    requires row.status == Pending && row.cancellable && row.attempts == 0 && row.dueAt <= 0 && row.createdAt == 0
    ensures exists before, after ::
      Run(Initial(0, row), before).row.status == Completed && Run(Initial(0, row), before + after).row.status == Failed
  {
    var s0 := Initial(0, row);
    var before := TakenOver(row);
    before := More(s0, before, By(0, Store));
    before := More(s0, before, By(0, Complete));
    assert Run(s0, before).row.status == Completed && Run(s0, before).workers[1] == Claiming;
    var all := More(s0, before, By(1, Fail));
    all := More(s0, all, By(1, Retry));
    assert all == before + [By(1, Fail), By(1, Retry)];
  }

  lemma More(s: State, actions: seq<Action>, a: Action) returns (longer: seq<Action>)
    ensures longer == actions + [a] && Run(s, longer) == Apply(Run(s, actions), a)
  {
    RunAppend(s, actions, a);
    longer := actions + [a];
  }
}
