/**
 Runs of overlapping syncs of one connection.  A sync reads the stored cursor, loads its
 pages outside any transaction, and commits them later, so a commit may move the stored
 cursor backwards.
 */
module FinancialOverlap {
  import opened Options
  import opened FinancialLedger
  import opened FinancialSync

  datatype Flight = Started(original: nat) | Ready(original: nat, pages: seq<Page>, cursor: nat)

  /** The pages `lo` up to but not including `hi` of the log. */
  datatype Stretch = Stretch(lo: nat, hi: nat)

  /** `high` is the furthest position ever committed, `commits` what each commit carried. */
  datatype World = World(
    log: seq<Page>, ledger: Ledger, cursor: nat, high: nat, flights: map<nat, Flight>, commits: seq<Stretch>)

  datatype Action =
    | Publish(page: Page)
    | Begin(id: nat)
    | LoadPages(id: nat, answers: nat -> nat -> Answer)
    | Commit(id: nat)
    | Abort(id: nat)

  const Empty := World([], map[], 0, 0, map[], [])

  ghost predicate WellFormed(w: World) {
    && w.cursor <= w.high <= |w.log|
    && (forall id | id in w.flights :: FlightOk(w, w.flights[id]))
  }

  ghost predicate FlightOk(w: World, f: Flight) {
    && f.original <= w.high
    && (f.Ready? ==> Unbroken(w.log, f.pages, f.original, f.cursor))
  }

  function Committed(w: World, id: nat): World
    requires id in w.flights && w.flights[id].Ready?
  {
    var f := w.flights[id];
    w.(ledger := Batch(w.ledger, f.pages), cursor := f.cursor,
       high := if w.high < f.cursor then f.cursor else w.high, flights := w.flights - {id},
       commits := w.commits + [Stretch(f.original, f.cursor)])
  }

  ghost function Apply(w: World, a: Action): World
    requires WellFormed(w)
  {
    match a
    case Publish(page) => w.(log := w.log + [page])
    case Begin(id) => if id in w.flights then w else w.(flights := w.flights[id := Started(w.cursor)])
    case LoadPages(id, answers) =>
      if id !in w.flights || !w.flights[id].Started? then w
      else (
        var original := w.flights[id].original;
        match Load(w.log, original, answers, 0)
        case LoadFailed(_) => w.(flights := w.flights - {id})
        case Pages(pages, end) => w.(flights := w.flights[id := Ready(original, pages, end)]))
    case Commit(id) => if id in w.flights && w.flights[id].Ready? then Committed(w, id) else w
    case Abort(id) => w.(flights := w.flights - {id})
  }

  lemma LongerLog(w: World, w': World, f: Flight)
    requires FlightOk(w, f) && w.log <= w'.log && w.high <= w'.high
    ensures FlightOk(w', f)
  {
    if f.Ready? { assert w'.log[f.original..f.cursor] == w.log[f.original..f.cursor]; }
  }

  lemma StepWellFormed(w: World, a: Action)
    requires WellFormed(w)
    ensures WellFormed(Apply(w, a)) && w.log <= Apply(w, a).log
  {
    var w' := Apply(w, a);
    if a.LoadPages? && a.id in w.flights && w.flights[a.id].Started? {
      LoadUnbroken(w.log, w.flights[a.id].original, a.answers, 0);
    }
    forall id | id in w'.flights ensures FlightOk(w', w'.flights[id]) {
      if id in w.flights && w.flights[id] == w'.flights[id] { LongerLog(w, w', w.flights[id]); }
    }
  }

  ghost function Run(w: World, actions: seq<Action>): World
    requires WellFormed(w)
    decreases |actions|
  {
    if actions == [] then w
    else
      StepWellFormed(w, actions[0]);
      Run(Apply(w, actions[0]), actions[1..])
  }

  // ---------------------------------------------------------------- commits in order

  /** The commit starts no further than the stored cursor, so it leaves no gap. */
  predicate NoSkip(w: World, a: Action) {
    a.Commit? && a.id in w.flights ==> w.flights[a.id].original <= w.cursor
  }

  ghost predicate NeverSkips(w: World, actions: seq<Action>)
    requires WellFormed(w)
    decreases |actions|
  {
    actions != [] ==>
      (NoSkip(w, actions[0]) && (StepWellFormed(w, actions[0]); NeverSkips(Apply(w, actions[0]), actions[1..])))
  }

  /** From any position up to the cursor, replaying up to `high` gives the one-pass ledger. */
  ghost predicate CatchesUp(log: seq<Page>, ledger: Ledger, cursor: nat, high: nat)
    requires cursor <= high <= |log|
  {
    forall k | 0 <= k <= cursor :: Fold(ledger, log[k..high]) == Full(log, high)
  }

  lemma FoldSplit(l: Ledger, log: seq<Page>, lo: nat, mid: nat, hi: nat)
    requires lo <= mid <= hi <= |log|
    ensures Fold(l, log[lo..hi]) == Fold(Fold(l, log[lo..mid]), log[mid..hi])
  {
    assert log[lo..hi] == log[lo..mid] + log[mid..hi];
    FoldConcat(l, log[lo..mid], log[mid..hi]);
  }

  lemma FullExtends(log: seq<Page>, n: nat, m: nat)
    requires n <= m <= |log|
    ensures Fold(Full(log, n), log[n..m]) == Full(log, m)
  {
    assert log[..m] == log[..n] + log[n..m];
    FoldConcat(map[], log[..n], log[n..m]);
  }

  lemma CatchesUpFurther(log: seq<Page>, l: Ledger, cursor: nat, high: nat, k: nat, e: nat)
    requires k <= cursor <= high <= e <= |log| && CatchesUp(log, l, cursor, high)
    ensures Fold(l, log[k..e]) == Full(log, e)
  {
    FoldSplit(l, log, k, high, e);
    FullExtends(log, high, e);
  }

  /** The heart of it: a stretch that is followed by everything from a position not beyond its
      end only matters where it starts earlier. */
  lemma StretchAbsorbed(l: Ledger, log: seq<Page>, lo: nat, hi: nat, from: nat, to: nat)
    requires lo <= hi <= to <= |log| && from <= hi
    ensures Fold(Fold(l, log[lo..hi]), log[from..to]) == Fold(l, log[if from <= lo then from else lo..to])
  {
    if from <= lo {
      assert log[from..to] == log[from..lo] + log[lo..hi] + log[hi..to];
      ReplayAbsorbed(l, log[from..lo], log[lo..hi], log[hi..to]);
    } else {
      FoldSplit(l, log, lo, from, hi);
      assert log[from..to] == [] + log[from..hi] + log[hi..to];
      ReplayAbsorbed(Fold(l, log[lo..from]), [], log[from..hi], log[hi..to]);
      FoldSplit(l, log, lo, from, to);
    }
  }

  /** So committing a stretch that starts at or before the cursor keeps the property, wherever
      the stretch ends. */
  lemma CommitCatchesUp(log: seq<Page>, l: Ledger, cursor: nat, high: nat, lo: nat, hi: nat, high': nat)
    requires lo <= cursor <= high <= high' <= |log| && lo <= hi <= high'
    requires CatchesUp(log, l, cursor, high)
    ensures CatchesUp(log, Fold(l, log[lo..hi]), hi, high')
  {
    forall k | 0 <= k <= hi ensures Fold(Fold(l, log[lo..hi]), log[k..high']) == Full(log, high') {
      StretchAbsorbed(l, log, lo, hi, k, high');
      CatchesUpFurther(log, l, cursor, high, if k <= lo then k else lo, high');
    }
  }

  lemma StepCatchesUp(w: World, a: Action)
    requires WellFormed(w) && ConsistentlyListed(w.log) && NoSkip(w, a)
    requires CatchesUp(w.log, w.ledger, w.cursor, w.high)
    ensures WellFormed(Apply(w, a))
    ensures var w' := Apply(w, a); CatchesUp(w'.log, w'.ledger, w'.cursor, w'.high)
  {
    StepWellFormed(w, a);
    var w' := Apply(w, a);
    match a
    case Publish(page) =>
      forall k | 0 <= k <= w.cursor ensures Fold(w.ledger, w'.log[k..w.high]) == Full(w'.log, w.high) {
        assert w'.log[k..w.high] == w.log[k..w.high] && w'.log[..w.high] == w.log[..w.high];
      }
    case Commit(id) =>
      if id in w.flights && w.flights[id].Ready? {
        var f := w.flights[id];
        assert FlightOk(w, f);
        BatchIsStretch(w.ledger, w.log, f.pages, f.original, f.cursor);
        CommitCatchesUp(w.log, w.ledger, w.cursor, w.high, f.original, f.cursor, w'.high);
      }
    case _ =>
  }

  lemma {:induction false} RunCatchesUp(w: World, actions: seq<Action>)
    requires WellFormed(w) && CatchesUp(w.log, w.ledger, w.cursor, w.high) && NeverSkips(w, actions)
    requires ConsistentlyListed(Run(w, actions).log)
    ensures WellFormed(Run(w, actions)) && w.log <= Run(w, actions).log
    ensures var t := Run(w, actions); CatchesUp(t.log, t.ledger, t.cursor, t.high)
    decreases |actions|
  {
    RunGrowsLog(w, actions);
    if actions != [] {
      var t := Run(w, actions);
      assert t.log[0..|w.log|] == w.log;
      ConsistentlyListedPart(t.log, 0, |w.log|);
      StepCatchesUp(w, actions[0]);
      RunCatchesUp(Apply(w, actions[0]), actions[1..]);
    }
  }

  lemma {:induction false} RunGrowsLog(w: World, actions: seq<Action>)
    requires WellFormed(w)
    ensures WellFormed(Run(w, actions)) && w.log <= Run(w, actions).log
    decreases |actions|
  {
    if actions != [] {
      StepWellFormed(w, actions[0]);
      RunGrowsLog(Apply(w, actions[0]), actions[1..]);
    }
  }

  /** After any run of syncs, failures and late commits that never skips ahead: the next sync
      that gets at least as far as any before it leaves exactly the one-pass ledger, and where
      the cursor has not gone back the ledger already is that. */
  lemma RefinesWhileNothingSkips(actions: seq<Action>, e: nat)
    requires NeverSkips(Empty, actions) && ConsistentlyListed(Run(Empty, actions).log)
    requires Run(Empty, actions).high <= e <= |Run(Empty, actions).log|
    ensures var w := Run(Empty, actions);
      && w.cursor <= w.high
      && Batch(w.ledger, w.log[w.cursor..e]) == Full(w.log, e)
      && (w.cursor == w.high ==> w.ledger == Full(w.log, w.cursor))
  {
    RunCatchesUp(Empty, actions);
    var w := Run(Empty, actions);
    CatchesUpFurther(w.log, w.ledger, w.cursor, w.high, w.cursor, e);
    BatchIsStretch(w.ledger, w.log, w.log[w.cursor..e], w.cursor, e);
    assert w.log[w.cursor..w.high] == [] || w.cursor < w.high;
    if w.cursor == w.high { assert Fold(w.ledger, w.log[w.cursor..w.high]) == w.ledger; }
  }

  // ---------------------------------------------------------------- one sync at a time

  predicate Alone(w: World, a: Action) {
    a.Begin? ==> w.flights == map[]
  }

  ghost predicate AlwaysAlone(w: World, actions: seq<Action>)
    requires WellFormed(w)
    decreases |actions|
  {
    actions != [] ==>
      (Alone(w, actions[0]) && (StepWellFormed(w, actions[0]); AlwaysAlone(Apply(w, actions[0]), actions[1..])))
  }

  ghost predicate Serial(w: World) {
    && WellFormed(w)
    && w.cursor == w.high
    && (forall id | id in w.flights :: w.flights[id].original == w.cursor)
    && (forall i, j | i in w.flights && j in w.flights :: i == j)
  }

  lemma {:induction false} SerialNeverSkips(w: World, actions: seq<Action>)
    requires Serial(w) && AlwaysAlone(w, actions)
    ensures NeverSkips(w, actions) && Serial(Run(w, actions)) && w.cursor <= Run(w, actions).cursor
    decreases |actions|
  {
    if actions != [] {
      StepWellFormed(w, actions[0]);
      assert forall id | id in w.flights :: FlightOk(w, w.flights[id]);
      SerialNeverSkips(Apply(w, actions[0]), actions[1..]);
    }
  }

  /** Syncs that do not overlap: the ledger is always the fold of the log up to the stored
      cursor, through any failures and restarts, and the cursor never goes back. */
  lemma SerialSyncsFollowTheLog(before: seq<Action>, after: seq<Action>)
    requires AlwaysAlone(Empty, before + after) && ConsistentlyListed(Run(Empty, before + after).log)
    ensures var w := Run(Empty, before + after); WellFormed(w) && w.ledger == Full(w.log, w.cursor)
    ensures Run(Empty, before).cursor <= Run(Empty, before + after).cursor
  {
    SerialNeverSkips(Empty, before + after);
    RefinesWhileNothingSkips(before + after, Run(Empty, before + after).high);
    RunSplit(Empty, before, after);
    SerialNeverSkips(Empty, before);
    SerialNeverSkips(Run(Empty, before), after);
  }

  lemma {:induction false} RunSplit(w: World, before: seq<Action>, after: seq<Action>)
    requires WellFormed(w)
    ensures WellFormed(Run(w, before)) && Run(w, before + after) == Run(Run(w, before), after)
    ensures AlwaysAlone(w, before + after) ==> AlwaysAlone(w, before) && AlwaysAlone(Run(w, before), after)
    decreases |before|
  {
    if before == [] {
      assert before + after == after;
    } else {
      StepWellFormed(w, before[0]);
      assert (before + after)[1..] == before[1..] + after;
      RunSplit(Apply(w, before[0]), before[1..], after);
    }
  }
}
