/**
 Who may schedule follow-ups: the wakes of user turns and of follow-ups share one scheduling
 step and write one table, each with its own permission and chain depth
 (agents/service.py, agents/followups.py).
 */
module FollowUpScheduling {
  import opened Options
  import opened FollowUps

  /** What an agent run was started for. */
  datatype Origin = UserTurn | FollowUpTurn(followUp: Id)

  /** The permission and depth that a follow-up's wake passes on. */
  datatype Policy = Policy(allowed: bool, depth: nat)

  /** What the code passes. */
  function FollowUpPolicy(settings: Settings): Policy {
    Policy(false, if settings.maxDepth < 0 then 0 else settings.maxDepth)
  }

  datatype State = State(rows: map<Id, FollowUp>, runs: map<Id, Origin>, next: Id)

  const Empty := State(map[], map[], 0)

  datatype Write = ByClaim(now: int) | ByCompletion | ByCancellation | ByRetry(now: int)

  datatype Action =
    | UserWake(run: Id, conversation: Id, allowed: bool, proposal: Option<Proposal>, now: int)
    | FollowUpWake(run: Id, followUp: Id, proposal: Option<Proposal>, now: int)
    | Work(id: Id, write: Write)
    | Message(conversation: Id)

  function Written(f: FollowUp, write: Write): FollowUp {
    match write
    case ByClaim(now) => Claimed(f, now)
    case ByCompletion => Finished(f)
    case ByCancellation => CancelledBy(f)
    case ByRetry(now) => Retried(f, now)
  }

  /** The shared step at the end of a wake; a run belongs to one wake only. */
  function Woken(s: State, run: Id, origin: Origin, conversation: Id, p: Policy, proposal: Option<Proposal>,
        settings: Settings, now: int): State {
    if run in s.runs && s.runs[run] != origin then s
    else
      var rows :=
        if p.allowed then Scheduled(s.rows, s.next, conversation, run, proposal, p.depth, settings, now) else s.rows;
      State(rows, s.runs[run := origin], s.next + 1)
  }

  function Apply(s: State, p: Policy, settings: Settings, a: Action): State {
    match a
    case UserWake(run, conversation, allowed, proposal, now) =>
      Woken(s, run, UserTurn, conversation, Policy(allowed, 0), proposal, settings, now)
    case FollowUpWake(run, followUp, proposal, now) =>
      if followUp !in s.rows then s
      else Woken(s, run, FollowUpTurn(followUp), s.rows[followUp].conversation, p, proposal, settings, now)
    case Work(id, write) => if id in s.rows then s.(rows := s.rows[id := Written(s.rows[id], write)]) else s
    case Message(conversation) => s.(rows := map id | id in s.rows :: CancelledByMessage(s.rows[id], conversation))
  }

  function Run(s: State, p: Policy, settings: Settings, actions: seq<Action>): State {
    if actions == [] then s
    else Apply(Run(s, p, settings, actions[..|actions| - 1]), p, settings, actions[|actions| - 1])
  }

  // ---------------------------------------------------------------- what every run keeps

  predicate RowOk(s: State, settings: Settings, id: Id) {
    && id in s.rows && id < s.next && s.rows[id].source in s.runs
    && 1 <= s.rows[id].depth <= settings.maxDepth
  }

  predicate SameSource(s: State, i: Id, j: Id) {
    i in s.rows && j in s.rows && s.rows[i].source == s.rows[j].source
  }

  /** One follow-up per run at most, each of a recorded run and within the chain depth. */
  ghost predicate Inv(s: State, settings: Settings) {
    && (forall id {:trigger RowOk(s, settings, id)} | id in s.rows :: RowOk(s, settings, id))
    && (forall i, j | SameSource(s, i, j) :: i == j)
  }

  lemma StepKeepsInv(s: State, p: Policy, settings: Settings, a: Action)
    requires Inv(s, settings)
    ensures Inv(Apply(s, p, settings, a), settings)
  {
    var t := Apply(s, p, settings, a);
    forall id | id in t.rows ensures RowOk(t, settings, id) {
      if id in s.rows { assert RowOk(s, settings, id); }
    }
    forall i, j | SameSource(t, i, j) ensures i == j {
      if i in s.rows && j in s.rows { assert SameSource(s, i, j); }
    }
  }

  /** Whatever permissions follow-up wakes had: each run has at most one follow-up, and no chain
      grows beyond the maximum depth. */
  lemma {:induction false} RunKeepsInv(p: Policy, settings: Settings, actions: seq<Action>)
    ensures Inv(Run(Empty, p, settings, actions), settings)
  {
    if actions != [] {
      RunKeepsInv(p, settings, actions[..|actions| - 1]);
      StepKeepsInv(Run(Empty, p, settings, actions[..|actions| - 1]), p, settings, actions[|actions| - 1]);
    }
  }

  // ---------------------------------------------------------------- breeding

  /** Some stored follow-up was scheduled by the run of a follow-up. */
  predicate Bred(s: State) {
    exists id :: id in s.rows && s.rows[id].source in s.runs && s.runs[s.rows[id].source].FollowUpTurn?
  }

  predicate MayBreed(p: Policy, settings: Settings) {
    settings.enabled && p.allowed && p.depth < settings.maxDepth
  }

  lemma StepDoesNotBreed(s: State, p: Policy, settings: Settings, a: Action)
    requires Inv(s, settings) && !Bred(s) && !MayBreed(p, settings)
    ensures !Bred(Apply(s, p, settings, a))
  {
    var t := Apply(s, p, settings, a);
    forall id | id in t.rows && t.rows[id].source in t.runs ensures t.runs[t.rows[id].source].UserTurn? {
      if id in s.rows {
        assert RowOk(s, settings, id);
        assert t.rows[id].source == s.rows[id].source;
      }
    }
  }

  lemma {:induction false} RunDoesNotBreed(p: Policy, settings: Settings, actions: seq<Action>)
    requires !MayBreed(p, settings)
    ensures !Bred(Run(Empty, p, settings, actions))
  {
    if actions != [] {
      var init := actions[..|actions| - 1];
      RunDoesNotBreed(p, settings, init);
      RunKeepsInv(p, settings, init);
      StepDoesNotBreed(Run(Empty, p, settings, init), p, settings, actions[|actions| - 1]);
    }
  }

  /** A user turn schedules a follow-up, whose run schedules the next. */
  lemma BreedsWhenAllowed(p: Policy, settings: Settings)
    requires MayBreed(p, settings)
    ensures exists actions :: Bred(Run(Empty, p, settings, actions))
  {
    var first, second := UserWake(0, 0, true, Some(Proposal(0)), 0), FollowUpWake(1, 0, Some(Proposal(0)), 0);
    var actions := [first, second];
    assert actions[..1] == [first] && [first][..0] == [];
    var s := Apply(Empty, p, settings, first);
    assert Run(Empty, p, settings, [first]) == s && 0 in s.rows && s.rows[0].source == 0;
    var t := Apply(s, p, settings, second);
    assert Run(Empty, p, settings, actions) == t;
    assert 1 in t.rows && t.rows[1].source == 1 && t.runs[1] == FollowUpTurn(0);
  }

  /** A follow-up's run can end up as the source of a follow-up exactly when it is given both the
      permission and a depth below the maximum, so each of the two guards is enough alone. */
  lemma BreedsExactly(p: Policy, settings: Settings)
    ensures (exists actions :: Bred(Run(Empty, p, settings, actions))) <==> MayBreed(p, settings)
  {
    if MayBreed(p, settings) {
      BreedsWhenAllowed(p, settings);
    } else {
      forall actions ensures !Bred(Run(Empty, p, settings, actions)) { RunDoesNotBreed(p, settings, actions); }
    }
  }

  /** With what the code passes: every stored follow-up, in every run, comes from a user turn and
      is the first of its chain. */
  lemma {:induction false} FollowUpsDoNotBreed(settings: Settings, actions: seq<Action>, id: Id)
    requires id in Run(Empty, FollowUpPolicy(settings), settings, actions).rows
    ensures var s := Run(Empty, FollowUpPolicy(settings), settings, actions);
      s.rows[id].source in s.runs && s.runs[s.rows[id].source] == UserTurn && s.rows[id].depth == 1
  {
    var p := FollowUpPolicy(settings);
    var s := Run(Empty, p, settings, actions);
    RunKeepsInv(p, settings, actions);
    BreedsExactly(p, settings);
    assert RowOk(s, settings, id);
    assert !Bred(s);
    var init := actions[..|actions| - 1];
    var before := Run(Empty, p, settings, init);
    if id in before.rows { FollowUpsDoNotBreed(settings, init, id); }
  }
}
