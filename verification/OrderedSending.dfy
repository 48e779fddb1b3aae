/**
 Any number of runs of the same turn's sender (agents/channel_delivery.py), interleaved step by
 step with each other, with crashes and with the provider's webhooks.  Each database
 transaction and each provider call is one step; a step whose guard fails changes nothing.
 */
module OrderedSending {
  import opened Options
  import opened Delivery

  datatype Turn = Turn(base: string, messages: seq<nat>)

  function Key(t: Turn, i: nat): string { DeliveryKey(t.base, i) }

  /** Where a run is: the bubble it works on, the delivery row it holds. */
  datatype Pc =
    | Looking(i: nat)
    | Inserting(i: nat)
    | Deciding(i: nat, id: nat)
    | Ready(i: nat, id: nat)
    | Sending(i: nat, id: nat)
    | MarkingSent(i: nat, id: nat, response: Option<string>)
    | MarkingFailed(i: nat, id: nat)
    | Done
    | Raised

  /** The provider's side: requests it was sent and bubbles it accepted. */
  datatype Entry = Started(i: nat, key: string) | Accepted(i: nat)

  datatype State = State(rows: seq<Row>, log: seq<Entry>, workers: map<nat, Pc>)

  datatype Action =
    | Start(w: nat)
    | Work(w: nat, now: int)
    | Respond(w: nat, response: Option<string>)
    | Fail(w: nat)
    | Crash(w: nat)
    | Accept(i: nat)
    | Notify(id: nat, i: nat, event: Event, externalId: Option<string>, at: Option<int>, now: int)

  function Find(rows: seq<Row>, key: string): (id: Option<nat>)
    ensures id.Some? ==> id.value < |rows| && rows[id.value].key == key
  {
    FindBelow(rows, key, |rows|)
  }

  function FindBelow(rows: seq<Row>, key: string, n: nat): (id: Option<nat>)
    requires n <= |rows|
    ensures id.Some? ==> id.value < n && rows[id.value].key == key
  {
    if n == 0 then None else if rows[n - 1].key == key then Some(n - 1) else FindBelow(rows, key, n - 1)
  }

  lemma {:induction false} FindSeesAll(rows: seq<Row>, key: string, n: nat)
    requires n <= |rows|
    ensures FindBelow(rows, key, n).None? ==> forall k | 0 <= k < n :: rows[k].key != key
  {
    if n > 0 { FindSeesAll(rows, key, n - 1); }
  }

  function Enter(t: Turn, i: nat): Pc { if i < |t.messages| then Looking(i) else Done }

  /** The next position of run `w` working on its own, given the table. */
  function NextPc(t: Turn, rows: seq<Row>, pc: Pc): Pc {
    match pc
    case Looking(i) =>
      var found := Find(rows, Key(t, i));
      if found.Some? then Deciding(i, found.value) else Inserting(i)
    case Inserting(i) => if Find(rows, Key(t, i)).Some? then Raised else Deciding(i, |rows|)
    case Deciding(i, id) =>
      if id < |rows| && !NeedsSend(rows[id].status, true) then Enter(t, i + 1) else Ready(i, id)
    case Ready(i, id) => Sending(i, id)
    case Sending(_, _) => pc
    case MarkingSent(i, _, _) => Enter(t, i + 1)
    case MarkingFailed(_, _) => Raised
    case Done => Done
    case Raised => Raised
  }

  function NextRows(t: Turn, rows: seq<Row>, pc: Pc, now: int): seq<Row> {
    match pc
    case Inserting(i) =>
      if Find(rows, Key(t, i)).Some? || i >= |t.messages| then rows else rows + [NewRow(Key(t, i), t.messages[i])]
    case MarkingSent(_, id, response) => Written(rows, id, MarkSent(response, now))
    case MarkingFailed(_, id) => Written(rows, id, MarkFailed)
    case _ => rows
  }

  function Written(rows: seq<Row>, id: nat, a: Delivery.Action): seq<Row> {
    if id < |rows| then rows[id := Applied(rows[id], a)] else rows
  }

  predicate Reports(e: Event) { e == SentEvent || e == DeliveredEvent || e == ReadEvent }

  predicate CanNotify(t: Turn, s: State, id: nat, i: nat, event: Event) {
    id < |s.rows| && i < |t.messages| && s.rows[id].key == Key(t, i) && (Reports(event) ==> Accepted(i) in s.log)
  }

  function Apply(t: Turn, s: State, a: Action): State {
    match a
    case Start(w) => if w in s.workers then s else s.(workers := s.workers[w := Enter(t, 0)])
    case Work(w, now) =>
      if w !in s.workers then s
      else
        var pc := s.workers[w];
        State(NextRows(t, s.rows, pc, now),
              if pc.Ready? then s.log + [Started(pc.i, Key(t, pc.i))] else s.log,
              s.workers[w := NextPc(t, s.rows, pc)])
    case Respond(w, response) =>
      if w in s.workers && s.workers[w].Sending? && Accepted(s.workers[w].i) in s.log
      then s.(workers := s.workers[w := MarkingSent(s.workers[w].i, s.workers[w].id, response)]) else s
    case Fail(w) =>
      if w in s.workers && s.workers[w].Sending?
      then s.(workers := s.workers[w := MarkingFailed(s.workers[w].i, s.workers[w].id)]) else s
    case Crash(w) => if w in s.workers then s.(workers := s.workers[w := Raised]) else s
    case Accept(i) => if Started(i, Key(t, i)) in s.log then s.(log := s.log + [Accepted(i)]) else s
    case Notify(id, i, event, externalId, at, now) =>
      if CanNotify(t, s, id, i, event)
      then s.(rows := Written(s.rows, id, Webhook(event, externalId, at, now))) else s
  }

  function Run(t: Turn, s: State, actions: seq<Action>): State {
    if actions == [] then s else Apply(t, Run(t, s, actions[..|actions| - 1]), actions[|actions| - 1])
  }

  const Initial := State([], [], map[])

  // ---------------------------------------------------------------- the invariant

  predicate Passed(log: seq<Entry>, i: nat) {
    forall j: nat | j < i :: Accepted(j) in log
  }

  ghost predicate RowsOk(t: Turn, s: State) {
    && (forall id | 0 <= id < |s.rows| :: RowOk(t, s.rows[id], s.log))
    && (forall k, l | 0 <= k < l < |s.rows| :: s.rows[k].key != s.rows[l].key)
  }

  /** The row is one bubble's, and claims a send only when the provider accepted it. */
  ghost predicate RowOk(t: Turn, r: Row, log: seq<Entry>) {
    exists i: nat :: IsRowOf(t, r, i) && (Order(r.status) > 0 ==> Accepted(i) in log)
  }

  predicate IsRowOf(t: Turn, r: Row, i: nat) {
    i < |t.messages| && r.key == Key(t, i) && r.message == t.messages[i]
  }

  predicate PcOk(t: Turn, rows: seq<Row>, log: seq<Entry>, pc: Pc) {
    match pc
    case Looking(i) => i < |t.messages| && Passed(log, i)
    case Inserting(i) => i < |t.messages| && Passed(log, i)
    case Deciding(i, id) => Holds(t, rows, log, i, id)
    case Ready(i, id) => Holds(t, rows, log, i, id)
    case Sending(i, id) => Holds(t, rows, log, i, id)
    case MarkingSent(i, id, _) => Holds(t, rows, log, i, id) && Accepted(i) in log
    case MarkingFailed(i, id) => Holds(t, rows, log, i, id)
    case Done => Passed(log, |t.messages|)
    case Raised => true
  }

  predicate Holds(t: Turn, rows: seq<Row>, log: seq<Entry>, i: nat, id: nat) {
    i < |t.messages| && Passed(log, i) && id < |rows| && rows[id].key == Key(t, i)
  }

  /** Requests carry their bubble's key and come after every earlier bubble was accepted;
      only what was requested is accepted. */
  predicate EntryOk(t: Turn, log: seq<Entry>, p: nat) {
    && p < |log|
    && (match log[p]
       case Started(i, key) => i < |t.messages| && key == Key(t, i) && Passed(log[..p], i)
       case Accepted(i) => Started(i, Key(t, i)) in log[..p])
  }

  ghost predicate Inv(t: Turn, s: State) {
    && RowsOk(t, s)
    && (forall w | w in s.workers :: PcOk(t, s.rows, s.log, s.workers[w]))
    && (forall p: nat {:trigger EntryOk(t, s.log, p)} | p < |s.log| :: EntryOk(t, s.log, p))
  }

  // ---------------------------------------------------------------- one step keeps it

  /** Tables only grow and rows keep their key. */
  predicate Extends(rows: seq<Row>, rows': seq<Row>) {
    && |rows| <= |rows'|
    && forall k | 0 <= k < |rows| :: rows'[k].key == rows[k].key && rows'[k].message == rows[k].message
  }

  lemma ApplyExtends(t: Turn, s: State, a: Action)
    ensures Extends(s.rows, Apply(t, s, a).rows) && s.log <= Apply(t, s, a).log
  {
  }

  lemma PcStaysOk(t: Turn, rows: seq<Row>, log: seq<Entry>, pc: Pc, rows': seq<Row>, log': seq<Entry>)
    requires PcOk(t, rows, log, pc) && Extends(rows, rows') && log <= log'
    ensures PcOk(t, rows', log', pc)
  {
    assert forall e | e in log :: e in log';
  }

  lemma EntriesStayOk(t: Turn, log: seq<Entry>, e: Entry)
    requires forall p: nat {:trigger EntryOk(t, log, p)} | p < |log| :: EntryOk(t, log, p)
    requires match e case Started(i, key) => i < |t.messages| && key == Key(t, i) && Passed(log, i)
                     case Accepted(i) => Started(i, Key(t, i)) in log
    ensures forall p: nat {:trigger EntryOk(t, log + [e], p)} | p < |log + [e]| :: EntryOk(t, log + [e], p)
  {
    var longer := log + [e];
    forall p: nat | p < |longer| ensures EntryOk(t, longer, p) {
      if p < |log| {
        assert EntryOk(t, log, p);
        assert longer[..p] == log[..p];
      } else {
        assert longer[..p] == log;
      }
    }
  }

  lemma RowStaysOk(t: Turn, r: Row, log: seq<Entry>, log': seq<Entry>)
    requires RowOk(t, r, log) && log <= log'
    ensures RowOk(t, r, log')
  {
    var i: nat :| IsRowOf(t, r, i) && (Order(r.status) > 0 ==> Accepted(i) in log);
    assert IsRowOf(t, r, i) && (Order(r.status) > 0 ==> Accepted(i) in log');
  }

  /** A write that claims a send needs the provider to have accepted the bubble. */
  lemma WrittenRowOk(t: Turn, r: Row, log: seq<Entry>, i: nat, a: Delivery.Action)
    requires RowOk(t, r, log) && i < |t.messages| && r.key == Key(t, i)
    requires Order(Applied(r, a).status) > 0 ==> Order(r.status) > 0 || Accepted(i) in log
    ensures RowOk(t, Applied(r, a), log)
  {
    var j: nat :| IsRowOf(t, r, j) && (Order(r.status) > 0 ==> Accepted(j) in log);
    KeysDiffer(t.base, i, j);
    assert IsRowOf(t, Applied(r, a), j);
  }

  lemma RowsStayOk(t: Turn, s: State, a: Action)
    requires Inv(t, s)
    ensures RowsOk(t, Apply(t, s, a))
  {
    var s' := Apply(t, s, a);
    ApplyExtends(t, s, a);
    if a.Work? && a.w in s.workers && s.workers[a.w].Inserting? {
      FindSeesAll(s.rows, Key(t, s.workers[a.w].i), |s.rows|);
    }
    forall id | 0 <= id < |s'.rows| ensures RowOk(t, s'.rows[id], s'.log) {
      if id < |s.rows| {
        if s'.rows[id] != s.rows[id] { RewrittenRowOk(t, s, a, id); }
        RowStaysOk(t, s'.rows[id], s.log, s'.log);
      } else {
        var pc := s.workers[a.w];
        assert IsRowOf(t, s'.rows[id], pc.i);
      }
    }
  }

  lemma RewrittenRowOk(t: Turn, s: State, a: Action, id: nat)
    requires Inv(t, s) && id < |s.rows| && Apply(t, s, a).rows[id] != s.rows[id]
    ensures RowOk(t, Apply(t, s, a).rows[id], s.log)
  {
    if a.Notify? {
      WrittenRowOk(t, s.rows[id], s.log, a.i, Webhook(a.event, a.externalId, a.at, a.now));
    } else {
      var pc := s.workers[a.w];
      if pc.MarkingSent? {
        WrittenRowOk(t, s.rows[id], s.log, pc.i, MarkSent(pc.response, a.now));
      } else {
        WrittenRowOk(t, s.rows[id], s.log, pc.i, MarkFailed);
      }
    }
  }

  /** A run that moves on to the next bubble leaves an accepted one behind. */
  lemma WorkerStaysOk(t: Turn, s: State, a: Action, w: nat)
    requires Inv(t, s) && w in Apply(t, s, a).workers
    ensures PcOk(t, Apply(t, s, a).rows, Apply(t, s, a).log, Apply(t, s, a).workers[w])
  {
    var s' := Apply(t, s, a);
    ApplyExtends(t, s, a);
    if w in s.workers {
      PcStaysOk(t, s.rows, s.log, s.workers[w], s'.rows, s'.log);
      if a.Work? && a.w == w { WorkStaysOk(t, s, w, a.now); }
    }
  }

  lemma WorkStaysOk(t: Turn, s: State, w: nat, now: int)
    requires Inv(t, s) && w in s.workers
    ensures var s' := Apply(t, s, Work(w, now)); PcOk(t, s'.rows, s'.log, s'.workers[w])
  {
    var pc := s.workers[w];
    var s' := Apply(t, s, Work(w, now));
    ApplyExtends(t, s, Work(w, now));
    assert forall e | e in s.log :: e in s'.log;
    if pc.Deciding? && Order(s.rows[pc.id].status) > 0 {
      SentMeansAccepted(t, s, pc.id, pc.i);
    }
  }

  lemma SentMeansAccepted(t: Turn, s: State, id: nat, i: nat)
    requires Inv(t, s) && id < |s.rows| && s.rows[id].key == Key(t, i) && Order(s.rows[id].status) > 0
    ensures Accepted(i) in s.log
  {
    assert RowOk(t, s.rows[id], s.log);
    var j: nat :| IsRowOf(t, s.rows[id], j) && (Order(s.rows[id].status) > 0 ==> Accepted(j) in s.log);
    KeysDiffer(t.base, i, j);
  }

  lemma StepKeepsInv(t: Turn, s: State, a: Action)
    requires Inv(t, s)
    ensures Inv(t, Apply(t, s, a))
  {
    var s' := Apply(t, s, a);
    RowsStayOk(t, s, a);
    forall w | w in s'.workers ensures PcOk(t, s'.rows, s'.log, s'.workers[w]) { WorkerStaysOk(t, s, a, w); }
    if s'.log != s.log { EntriesStayOk(t, s.log, s'.log[|s.log|]); }
  }

  lemma {:induction false} RunKeepsInv(t: Turn, s: State, actions: seq<Action>)
    requires Inv(t, s)
    ensures Inv(t, Run(t, s, actions))
  {
    if actions != [] {
      RunKeepsInv(t, s, actions[..|actions| - 1]);
      StepKeepsInv(t, Run(t, s, actions[..|actions| - 1]), actions[|actions| - 1]);
    }
  }

  // ---------------------------------------------------------------- what it means

  /** In every run, whenever a bubble is handed to the provider, every earlier bubble had already
      been accepted, which itself came after that bubble's own request. */
  lemma BubblesGoOutInOrder(t: Turn, actions: seq<Action>, p: nat, i: nat, j: nat)
    requires var log := Run(t, Initial, actions).log; p < |log| && log[p].Started? && log[p].i == i
    requires j < i
    ensures var log := Run(t, Initial, actions).log;
      exists q: nat, r: nat :: q < r < p && log[q] == Started(j, Key(t, j)) && log[r] == Accepted(j)
  {
    RunKeepsInv(t, Initial, actions);
    var log := Run(t, Initial, actions).log;
    assert EntryOk(t, log, p);
    assert Accepted(j) in log[..p];
    var r: nat :| r < p && log[r] == Accepted(j);
    assert EntryOk(t, log, r);
    var q: nat :| q < r && log[q] == Started(j, Key(t, j));
  }

  /** Two requests share a delivery key exactly when they are for the same bubble, and the
      table holds one row per key. */
  lemma OneKeyPerBubble(t: Turn, actions: seq<Action>, p: nat, q: nat)
    requires var log := Run(t, Initial, actions).log; p < |log| && q < |log| && log[p].Started? && log[q].Started?
    ensures var log := Run(t, Initial, actions).log; log[p].key == log[q].key <==> log[p].i == log[q].i
  {
    RunKeepsInv(t, Initial, actions);
    var log := Run(t, Initial, actions).log;
    assert EntryOk(t, log, p) && EntryOk(t, log, q);
    if log[p].key == log[q].key { KeysDiffer(t.base, log[p].i, log[q].i); }
  }

  lemma OneRowPerKey(t: Turn, actions: seq<Action>, k: nat, l: nat)
    requires var rows := Run(t, Initial, actions).rows; k < |rows| && l < |rows| && rows[k].key == rows[l].key
    ensures k == l
  {
    RunKeepsInv(t, Initial, actions);
  }

  /** A run that finished left every bubble accepted. */
  lemma DoneMeansAllAccepted(t: Turn, actions: seq<Action>, w: nat, i: nat)
    requires var s := Run(t, Initial, actions); w in s.workers && s.workers[w].Done?
    requires i < |t.messages|
    ensures Accepted(i) in Run(t, Initial, actions).log
  {
    RunKeepsInv(t, Initial, actions);
    var s := Run(t, Initial, actions);
    assert PcOk(t, s.rows, s.log, s.workers[w]);
  }

  // ---------------------------------------------------------------- no further sends

  /** Bubble `i` has arrived and no run is past the check of its status but before its request. */
  ghost predicate Quiet(t: Turn, s: State, i: nat, id: nat) {
    && id < |s.rows| && s.rows[id].key == Key(t, i) && Arrived(s.rows[id].status)
    && (forall w | w in s.workers && s.workers[w].Ready? :: s.workers[w].i != i)
  }

  function Requests(log: seq<Entry>, i: nat): nat {
    if log == [] then 0
    else Requests(log[..|log| - 1], i) + (if log[|log| - 1].Started? && log[|log| - 1].i == i then 1 else 0)
  }

  lemma ArrivedStaysArrived(t: Turn, s: State, a: Action, id: nat)
    requires id < |s.rows| && Arrived(s.rows[id].status)
    ensures id < |Apply(t, s, a).rows| && Arrived(Apply(t, s, a).rows[id].status)
  {
  }

  lemma OnlyReadyRunsRequest(t: Turn, s: State, a: Action, i: nat)
    requires forall w | w in s.workers && s.workers[w].Ready? :: s.workers[w].i != i
    ensures Requests(Apply(t, s, a).log, i) == Requests(s.log, i)
  {
    var s' := Apply(t, s, a);
    if s'.log != s.log { assert s'.log[..|s.log|] == s.log; }
  }

  /** The run would have read the bubble's own row, which has arrived. */
  lemma NobodyGetsReady(t: Turn, s: State, a: Action, i: nat, id: nat, w: nat)
    requires Inv(t, s) && Quiet(t, s, i, id)
    requires w in Apply(t, s, a).workers && Apply(t, s, a).workers[w].Ready?
    ensures Apply(t, s, a).workers[w].i != i
  {
    if w in s.workers { assert PcOk(t, s.rows, s.log, s.workers[w]); }
  }

  lemma StaysQuiet(t: Turn, s: State, a: Action, i: nat, id: nat)
    requires Inv(t, s) && i < |t.messages| && Quiet(t, s, i, id)
    ensures Quiet(t, Apply(t, s, a), i, id) && Requests(Apply(t, s, a).log, i) == Requests(s.log, i)
  {
    var s' := Apply(t, s, a);
    ApplyExtends(t, s, a);
    ArrivedStaysArrived(t, s, a, id);
    OnlyReadyRunsRequest(t, s, a, i);
    forall w | w in s'.workers && s'.workers[w].Ready? ensures s'.workers[w].i != i {
      NobodyGetsReady(t, s, a, i, id, w);
    }
  }

  /** Once a bubble is known delivered or read and no request for it is under way, none is ever
      started again, whatever runs, crashes and webhooks follow. */
  lemma {:induction false} ArrivedIsNeverSentAgain(t: Turn, s: State, actions: seq<Action>, i: nat, id: nat)
    requires Inv(t, s) && i < |t.messages| && Quiet(t, s, i, id)
    ensures Quiet(t, Run(t, s, actions), i, id) && Requests(Run(t, s, actions).log, i) == Requests(s.log, i)
  {
    if actions != [] {
      ArrivedIsNeverSentAgain(t, s, actions[..|actions| - 1], i, id);
      RunKeepsInv(t, s, actions[..|actions| - 1]);
      StaysQuiet(t, Run(t, s, actions[..|actions| - 1]), actions[|actions| - 1], i, id);
    }
  }

  // ---------------------------------------------------------------- exactly when a bubble is sent again

  ghost predicate Leads(t: Turn, s: State, s': State) {
    exists actions :: Run(t, s, actions) == s'
  }

  lemma Reaches(t: Turn, start: State, s: State, a: Action)
    requires Leads(t, start, s)
    ensures Leads(t, start, Apply(t, s, a))
  {
    var actions :| Run(t, start, actions) == s;
    var more := actions + [a];
    assert more[..|actions|] == actions;
    assert Run(t, start, more) == Apply(t, s, a);
  }

  lemma {:induction false} RequestsGrow(log: seq<Entry>, log': seq<Entry>, i: nat)
    requires log <= log'
    ensures Requests(log, i) <= Requests(log', i)
  {
    if |log| < |log'| {
      RequestsGrow(log, log'[..|log'| - 1], i);
    } else {
      assert log == log';
    }
  }

  lemma OneMoreRequest(log: seq<Entry>, i: nat, key: string)
    ensures Requests(log + [Started(i, key)], i) == Requests(log, i) + 1
  {
    assert (log + [Started(i, key)])[..|log|] == log;
  }

  /** Every row there is of bubble `i` still asks for a send. */
  predicate Sendable(t: Turn, rows: seq<Row>, i: nat) {
    forall id | 0 <= id < |rows| && rows[id].key == Key(t, i) :: NeedsSend(rows[id].status, true)
  }

  predicate AtPc(s: State, w: nat, pc: Pc) { w in s.workers && s.workers[w] == pc }

  /** From looking for the row of bubble `j` to holding it: one step, or two with an insert. */
  lemma GetsTheRow(t: Turn, start: State, s: State, w: nat, j: nat, i: nat) returns (s': State, id: nat)
    requires Inv(t, s) && Leads(t, start, s) && AtPc(s, w, Looking(j)) && Sendable(t, s.rows, i)
    ensures Inv(t, s') && Leads(t, start, s') && AtPc(s', w, Deciding(j, id)) && Sendable(t, s'.rows, i)
    ensures s'.log == s.log
  {
    s' := Apply(t, s, Work(w, 0));
    Reaches(t, start, s, Work(w, 0));
    StepKeepsInv(t, s, Work(w, 0));
    var found := Find(s.rows, Key(t, j));
    if found.Some? {
      id := found.value;
    } else {
      Reaches(t, start, s', Work(w, 0));
      StepKeepsInv(t, s', Work(w, 0));
      id := |s.rows|;
      s' := Apply(t, s', Work(w, 0));
    }
  }

  /** From holding the row to the request of bubble `j`. */
  lemma HandsOver(t: Turn, start: State, s: State, w: nat, j: nat, id: nat) returns (s': State)
    requires Inv(t, s) && Leads(t, start, s) && AtPc(s, w, Deciding(j, id))
    requires NeedsSend(s.rows[id].status, true)
    ensures Inv(t, s') && Leads(t, start, s') && AtPc(s', w, Sending(j, id))
    ensures s'.rows == s.rows && s'.log == s.log + [Started(j, Key(t, j))]
  {
    var ready := Apply(t, s, Work(w, 0));
    Reaches(t, start, s, Work(w, 0));
    StepKeepsInv(t, s, Work(w, 0));
    s' := Apply(t, ready, Work(w, 0));
    Reaches(t, start, ready, Work(w, 0));
    StepKeepsInv(t, ready, Work(w, 0));
  }

  /** From the request to the next bubble: the provider accepts, answers, and the row is marked. */
  lemma MovesOn(t: Turn, start: State, s: State, w: nat, j: nat, id: nat, i: nat) returns (s': State)
    requires Inv(t, s) && Leads(t, start, s) && AtPc(s, w, Sending(j, id)) && Sendable(t, s.rows, i)
    requires Started(j, Key(t, j)) in s.log && i != j
    ensures Inv(t, s') && Leads(t, start, s') && AtPc(s', w, Enter(t, j + 1)) && Sendable(t, s'.rows, i)
    ensures s.log <= s'.log
  {
    var accepted := Apply(t, s, Accept(j));
    Reaches(t, start, s, Accept(j));
    StepKeepsInv(t, s, Accept(j));
    assert accepted.log[|s.log|] == Accepted(j);
    var answered := Apply(t, accepted, Respond(w, None));
    Reaches(t, start, accepted, Respond(w, None));
    StepKeepsInv(t, accepted, Respond(w, None));
    s' := Apply(t, answered, Work(w, 0));
    Reaches(t, start, answered, Work(w, 0));
    StepKeepsInv(t, answered, Work(w, 0));
    assert PcOk(t, s.rows, s.log, s.workers[w]);
    if Key(t, i) == Key(t, j) { KeysDiffer(t.base, i, j); }
  }

  /** A run looking for bubble `j` gets past every bubble before `i` and then requests `i`. */
  lemma {:induction false} WalksTo(t: Turn, start: State, s: State, w: nat, j: nat, i: nat) returns (s': State)
    requires Inv(t, s) && Leads(t, start, s) && AtPc(s, w, Looking(j)) && Sendable(t, s.rows, i)
    requires j <= i < |t.messages|
    ensures Leads(t, start, s') && Requests(s.log, i) < Requests(s'.log, i)
    decreases i - j
  {
    var deciding, id := GetsTheRow(t, start, s, w, j, i);
    assert PcOk(t, deciding.rows, deciding.log, deciding.workers[w]);
    if NeedsSend(deciding.rows[id].status, true) {
      var sending := HandsOver(t, start, deciding, w, j, id);
      OneMoreRequest(s.log, j, Key(t, j));
      s' := sending;
      if j < i {
        assert sending.log[|s.log|] == Started(j, Key(t, j));
        var next := MovesOn(t, start, sending, w, j, id, i);
        s' := WalksTo(t, start, next, w, j + 1, i);
        RequestsGrow(s.log, next.log, i);
      }
    } else {
      var next := Apply(t, deciding, Work(w, 0));
      Reaches(t, start, deciding, Work(w, 0));
      StepKeepsInv(t, deciding, Work(w, 0));
      s' := WalksTo(t, start, next, w, j + 1, i);
    }
  }

  lemma {:induction false} UnusedWorker(ids: set<nat>) returns (w: nat)
    ensures forall other | other in ids :: other < w
    decreases |ids|
  {
    w := 0;
    if ids != {} {
      var some :| some in ids;
      var rest := UnusedWorker(ids - {some});
      w := if some < rest then rest else some + 1;
      forall other | other in ids ensures other < w {
        if other != some { assert other in ids - {some}; }
      }
    }
  }

  /** A new run requests every bubble whose row, if there is one, asks for a send. */
  lemma NewRunRequests(t: Turn, start: State, s: State, i: nat) returns (s': State)
    requires Inv(t, s) && Leads(t, start, s) && i < |t.messages| && Sendable(t, s.rows, i)
    ensures Leads(t, start, s') && Requests(s.log, i) < Requests(s'.log, i)
  {
    var w := UnusedWorker(s.workers.Keys);
    var started := Apply(t, s, Start(w));
    Reaches(t, start, s, Start(w));
    StepKeepsInv(t, s, Start(w));
    s' := WalksTo(t, start, started, w, 0, i);
  }

  /** Without a row that has arrived, a failure report makes the bubble ask for a send. */
  lemma MadeSendable(t: Turn, s: State, i: nat) returns (s': State)
    requires Inv(t, s) && i < |t.messages|
    requires forall id | 0 <= id < |s.rows| && s.rows[id].key == Key(t, i) :: !Arrived(s.rows[id].status)
    ensures Inv(t, s') && Leads(t, s, s') && s'.log == s.log && Sendable(t, s'.rows, i)
  {
    s' := s;
    assert Run(t, s, []) == s;
    var found := Find(s.rows, Key(t, i));
    if found.Some? {
      var report := Notify(found.value, i, FailedEvent, None, None, 0);
      Reaches(t, s, s, report);
      StepKeepsInv(t, s, report);
      s' := Apply(t, s, report);
    } else {
      FindSeesAll(s.rows, Key(t, i), |s.rows|);
    }
  }

  lemma ReadyRequests(t: Turn, s: State, w: nat, i: nat) returns (s': State)
    requires w in s.workers && s.workers[w].Ready? && s.workers[w].i == i
    ensures Leads(t, s, s') && Requests(s.log, i) < Requests(s'.log, i)
  {
    assert Run(t, s, []) == s;
    s' := Apply(t, s, Work(w, 0));
    Reaches(t, s, s, Work(w, 0));
    OneMoreRequest(s.log, i, Key(t, i));
  }

  ghost predicate NeverAgain(t: Turn, s: State, i: nat) {
    forall s' | Leads(t, s, s') :: Requests(s'.log, i) == Requests(s.log, i)
  }

  /** From any state a run can get to, bubble `i` is never requested again exactly when it has a
      row known delivered or read and no run is between the check of that row and its request. */
  lemma NeverSentAgainExactly(t: Turn, s: State, i: nat)
    requires Inv(t, s) && i < |t.messages|
    ensures NeverAgain(t, s, i) <==> exists id :: Quiet(t, s, i, id)
  {
    if id :| Quiet(t, s, i, id) {
      forall s' | Leads(t, s, s') ensures Requests(s'.log, i) == Requests(s.log, i) {
        var actions :| Run(t, s, actions) == s';
        ArrivedIsNeverSentAgain(t, s, actions, i, id);
      }
    } else if w :| w in s.workers && s.workers[w].Ready? && s.workers[w].i == i {
      var s' := ReadyRequests(t, s, w, i);
    } else {
      forall id | 0 <= id < |s.rows| && s.rows[id].key == Key(t, i) ensures !Arrived(s.rows[id].status) {
        assert !Quiet(t, s, i, id);
      }
      var low := MadeSendable(t, s, i);
      var s' := NewRunRequests(t, s, low, i);
    }
  }

  // ---------------------------------------------------------------- two ways to send twice

  ghost predicate Reachable(t: Turn, s: State) { Leads(t, Initial, s) }

  /** A run on its own creates the row and decides to send. */
  lemma FirstRunGetsReady(t: Turn)
    requires |t.messages| > 0
    ensures Reachable(t, State([NewRow(Key(t, 0), t.messages[0])], [], map[0 := Ready(0, 0)]))
  {
    var rows := [NewRow(Key(t, 0), t.messages[0])];
    assert Run(t, Initial, []) == Initial;
    Reaches(t, Initial, Initial, Start(0));
    var s1 := State([], [], map[0 := Looking(0)]);
    assert Apply(t, Initial, Start(0)) == s1;
    Reaches(t, Initial, s1, Work(0, 0));
    var s2 := State([], [], map[0 := Inserting(0)]);
    assert Apply(t, s1, Work(0, 0)) == s2;
    Reaches(t, Initial, s2, Work(0, 0));
    var s3 := State(rows, [], map[0 := Deciding(0, 0)]);
    assert Apply(t, s2, Work(0, 0)) == s3;
    Reaches(t, Initial, s3, Work(0, 0));
    assert Apply(t, s3, Work(0, 0)) == State(rows, [], map[0 := Ready(0, 0)]);
  }

  /** Two overlapping runs can both hand the same bubble to the provider; only the shared key
      lets the provider tell. */
  lemma OverlappingRunsMaySendTwice(t: Turn)
    requires |t.messages| > 0
    ensures exists s :: Reachable(t, s) && Requests(s.log, 0) == 2
  {
    FirstRunGetsReady(t);
    var k := Key(t, 0);
    var rows := [NewRow(k, t.messages[0])];
    var s4 := State(rows, [], map[0 := Ready(0, 0)]);
    Reaches(t, Initial, s4, Start(1));
    var s5 := State(rows, [], map[0 := Ready(0, 0), 1 := Looking(0)]);
    assert Apply(t, s4, Start(1)) == s5;
    Reaches(t, Initial, s5, Work(1, 0));
    var s6 := State(rows, [], map[0 := Ready(0, 0), 1 := Deciding(0, 0)]);
    assert Apply(t, s5, Work(1, 0)) == s6;
    Reaches(t, Initial, s6, Work(1, 0));
    var s7 := State(rows, [], map[0 := Ready(0, 0), 1 := Ready(0, 0)]);
    assert Apply(t, s6, Work(1, 0)) == s7;
    Reaches(t, Initial, s7, Work(0, 0));
    var s8 := State(rows, [Started(0, k)], map[0 := Sending(0, 0), 1 := Ready(0, 0)]);
    assert Apply(t, s7, Work(0, 0)) == s8;
    Reaches(t, Initial, s8, Work(1, 0));
    var log := [Started(0, k), Started(0, k)];
    assert Apply(t, s8, Work(1, 0)).log == log;
    assert log[..1] == [Started(0, k)] && log[..1][..0] == [];
    assert Requests(log[..1], 0) == 1;
  }

  function CrashedAfterRequest(t: Turn): State
    requires |t.messages| > 0
  {
    State([NewRow(Key(t, 0), t.messages[0])], [Started(0, Key(t, 0))], map[0 := Raised])
  }

  lemma CrashedAfterRequestIsReachable(t: Turn)
    requires |t.messages| > 0
    ensures Reachable(t, CrashedAfterRequest(t))
  {
    FirstRunGetsReady(t);
    var k := Key(t, 0);
    var rows := [NewRow(k, t.messages[0])];
    var s1 := State(rows, [], map[0 := Ready(0, 0)]);
    Reaches(t, Initial, s1, Work(0, 0));
    var s2 := State(rows, [Started(0, k)], map[0 := Sending(0, 0)]);
    assert Apply(t, s1, Work(0, 0)) == s2;
    Reaches(t, Initial, s2, Crash(0));
    assert Apply(t, s2, Crash(0)) == CrashedAfterRequest(t);
  }

  /** No overlap is needed: a run that dies between its request and the mark leaves a row that
      asks for a send, so a later run sends the bubble again. */
  lemma CrashedRunIsRepeated(t: Turn)
    requires |t.messages| > 0
    ensures Reachable(t, CrashedAfterRequest(t)) && Requests(CrashedAfterRequest(t).log, 0) == 1
    ensures !NeverAgain(t, CrashedAfterRequest(t), 0)
  {
    CrashedAfterRequestIsReachable(t);
    var s := CrashedAfterRequest(t);
    assert s.log[..0] == [] && Requests(s.log[..0], 0) == 0;
    var actions :| Run(t, Initial, actions) == s;
    RunKeepsInv(t, Initial, actions);
    NeverSentAgainExactly(t, s, 0);
  }
}
