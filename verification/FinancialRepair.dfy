/**
 Exactly when overlapping syncs leave the ledger that one pass over the log leaves: first for
 any list of commits, then for every run of syncs, with a run that ends wrong.
 */
module FinancialRepair {
  import opened Options
  import opened FinancialLedger
  import opened FinancialSync
  import opened FinancialOverlap

  // ---------------------------------------------------------------- any list of commits

  predicate Within(ss: seq<Stretch>, d: nat) {
    forall s | s in ss :: s.lo <= s.hi <= d
  }

  /** What a list of commits makes of a ledger. */
  function Commits(l: Ledger, log: seq<Page>, ss: seq<Stretch>): Ledger
    requires Within(ss, |log|)
    decreases |ss|
  {
    if ss == [] then l else Commits(Batch(l, log[ss[0].lo..ss[0].hi]), log, ss[1..])
  }

  predicate Carries(s: Stretch) { s.lo < s.hi }

  /** A later commit takes up where the n-th ended, or before. */
  predicate TakesUp(ss: seq<Stretch>, n: nat, k: nat) {
    n < k < |ss| && Carries(ss[k]) && ss[k].lo <= ss[n].hi
  }

  ghost predicate TakenUp(ss: seq<Stretch>, n: nat, d: nat) {
    n < |ss| && Carries(ss[n]) && ss[n].hi != d ==> exists k: nat :: TakesUp(ss, n, k)
  }

  predicate StartsTheLog(ss: seq<Stretch>, k: nat) {
    k < |ss| && Carries(ss[k]) && ss[k].lo == 0
  }

  /** Some commit starts the log, and every commit of pages that ended short of `d` is followed
      by one that starts no later than where it ended. */
  ghost predicate Caught(ss: seq<Stretch>, d: nat) {
    && (d > 0 ==> exists k: nat :: StartsTheLog(ss, k))
    && (forall n: nat | n < |ss| :: TakenUp(ss, n, d))
  }

  /** Where the commits start, or `d` when they carry nothing. */
  function Least(ss: seq<Stretch>, d: nat): nat {
    if ss == [] then d
    else
      var rest := Least(ss[1..], d);
      if Carries(ss[0]) && ss[0].lo < rest then ss[0].lo else rest
  }

  lemma {:induction false} LeastIsLeast(ss: seq<Stretch>, d: nat, k: nat)
    requires k < |ss| && Carries(ss[k])
    ensures Least(ss, d) <= ss[k].lo
  {
    if k > 0 { LeastIsLeast(ss[1..], d, k - 1); }
  }

  lemma {:induction false} LeastWithin(ss: seq<Stretch>, d: nat)
    ensures Least(ss, d) <= d
  {
    if ss != [] { LeastWithin(ss[1..], d); }
  }

  /** Each commit of pages ends no earlier than where the later ones start. */
  ghost predicate Linked(ss: seq<Stretch>, d: nat) {
    ss != [] ==> Linked(ss[1..], d) && (Carries(ss[0]) ==> Least(ss[1..], d) <= ss[0].hi)
  }

  lemma {:induction false} TakenUpIsLinked(ss: seq<Stretch>, d: nat)
    requires forall n: nat | n < |ss| :: TakenUp(ss, n, d)
    ensures Linked(ss, d)
  {
    if ss != [] {
      forall n: nat | n < |ss[1..]| ensures TakenUp(ss[1..], n, d) {
        var m := n + 1;
        assert TakenUp(ss, m, d);
        if k: nat :| TakesUp(ss, m, k) { assert TakesUp(ss[1..], n, k - 1); }
      }
      TakenUpIsLinked(ss[1..], d);
      assert TakenUp(ss, 0, d);
      if k: nat :| TakesUp(ss, 0, k) { LeastIsLeast(ss[1..], d, k - 1); }
      LeastWithin(ss[1..], d);
    }
  }

  /** Linked commits come to one pass from where they start. */
  lemma {:induction false} LinkedFolds(l: Ledger, log: seq<Page>, ss: seq<Stretch>, d: nat)
    requires ConsistentlyListed(log) && Within(ss, d) && d <= |log| && Linked(ss, d)
    ensures Least(ss, d) <= d && Commits(l, log, ss) == Fold(l, log[Least(ss, d)..d])
    decreases |ss|
  {
    LeastWithin(ss, d);
    if ss == [] {
      assert log[d..d] == [];
    } else {
      var s := ss[0];
      BatchIsStretch(l, log, log[s.lo..s.hi], s.lo, s.hi);
      LinkedFolds(Fold(l, log[s.lo..s.hi]), log, ss[1..], d);
      if Carries(s) {
        StretchAbsorbed(l, log, s.lo, s.hi, Least(ss[1..], d), d);
      } else {
        assert log[s.lo..s.hi] == [];
      }
    }
  }

  lemma {:induction false} CommitsConcat(l: Ledger, log: seq<Page>, ss: seq<Stretch>, more: seq<Stretch>)
    requires Within(ss, |log|) && Within(more, |log|)
    ensures Within(ss + more, |log|) && Commits(l, log, ss + more) == Commits(Commits(l, log, ss), log, more)
    decreases |ss|
  {
    if ss == [] {
      assert ss + more == more;
    } else {
      assert (ss + more)[1..] == ss[1..] + more;
      CommitsConcat(Batch(l, log[ss[0].lo..ss[0].hi]), log, ss[1..], more);
    }
  }

  lemma {:induction false} CommitsLonger(l: Ledger, log: seq<Page>, longer: seq<Page>, ss: seq<Stretch>)
    requires Within(ss, |log|) && log <= longer
    ensures Commits(l, log, ss) == Commits(l, longer, ss)
    decreases |ss|
  {
    if ss != [] {
      var s := ss[0];
      assert log[s.lo..s.hi] == longer[s.lo..s.hi];
      CommitsLonger(Batch(l, log[s.lo..s.hi]), log, longer, ss[1..]);
    }
  }

  function Note(amount: int): Page {
    Page([Listing("a")], [Raw(Some("t"), Some("a"), Some(0), Some(amount), None, false, "")], [], [])
  }

  /** One transaction, recorded with amount 1 just before position `c` and amended to 2 at it. */
  function Probe(c: nat, n: nat): seq<Page> {
    seq(n, i => if i + 1 == c then Note(1) else if i == c then Note(2) else EmptyPage)
  }

  lemma NoteEffect(l: Ledger, amount: int)
    ensures Fold(l, [Note(amount)]) == l["t" := Entry("a", 0, amount, "Transaction", false, "", false)]
  {
    var page := Note(amount);
    assert [page][..0] == [] && page.added[..0] == [];
    assert Listing("a") in page.accounts && "a" in Listed(page);
    assert Fold(l, [page]) == ApplyPage(Fold(l, []), Listed(page), page);
    assert UpsertAll(l, Listed(page), page.added) ==
      Upserted(UpsertAll(l, Listed(page), []), Listed(page), page.added[0]);
    assert |"Transaction"| == 11;
  }

  lemma {:induction false} ProbeEffect(l: Ledger, c: nat, n: nat, lo: nat, hi: nat)
    requires lo <= hi <= n
    ensures var l' := Fold(l, Probe(c, n)[lo..hi]);
      && (lo <= c < hi ==> "t" in l' && l'["t"].amount == 2)
      && (lo < c == hi ==> "t" in l' && l'["t"].amount == 1)
      && (c < lo ==> l' == l)
    decreases hi
  {
    var log := Probe(c, n);
    if lo < hi {
      var last := log[hi - 1];
      assert last == if hi == c then Note(1) else if hi - 1 == c then Note(2) else EmptyPage;
      assert log[lo..hi] == log[lo..hi - 1] + [last];
      FoldConcat(l, log[lo..hi - 1], [last]);
      ProbeEffect(l, c, n, lo, hi - 1);
      var before := Fold(l, log[lo..hi - 1]);
      if hi != c && hi - 1 != c {
        assert [last][..0] == [];
        assert Fold(before, [last]) == ApplyPage(Fold(before, []), Listed(last), last);
      } else {
        NoteEffect(before, if hi == c then 1 else 2);
      }
    }
  }

  lemma ProbeIsConsistent(c: nat, n: nat)
    ensures ConsistentlyListed(Probe(c, n))
  {
    var log := Probe(c, n);
    forall p, raw | p in log && raw in p.added + p.modified
      ensures Usable(raw, ListedIn(log)) ==> Usable(raw, Listed(p))
    {
      assert p == Note(1) || p == Note(2);
      assert Listing("a") in p.accounts && "a" in Listed(p);
    }
  }

  /** Commits beyond both notes leave the ledger alone. */
  lemma {:induction false} BeyondTheProbe(l: Ledger, c: nat, n: nat, ss: seq<Stretch>)
    requires Within(ss, n) && forall s | s in ss && Carries(s) :: c < s.lo
    ensures Commits(l, Probe(c, n), ss) == l
  {
    if ss != [] {
      var s, log := ss[0], Probe(c, n);
      ProbeIsConsistent(c, n);
      BatchIsStretch(l, log, log[s.lo..s.hi], s.lo, s.hi);
      if Carries(s) { ProbeEffect(l, c, n, s.lo, s.hi); } else { assert log[s.lo..s.hi] == []; }
      BeyondTheProbe(l, c, n, ss[1..]);
    }
  }

  /** A commit that ends at `c` with nothing after it taking up from there leaves the note of
      amount 1, whatever came before. */
  lemma StaleAfter(l: Ledger, n: nat, s: Stretch, rest: seq<Stretch>)
    requires Within([s] + rest, n) && Within(rest, n) && s.hi <= n && Carries(s)
    requires forall r | r in rest && Carries(r) :: s.hi < r.lo
    ensures var l' := Commits(l, Probe(s.hi, n), [s] + rest); "t" in l' && l'["t"].amount == 1
  {
    var log := Probe(s.hi, n);
    ProbeIsConsistent(s.hi, n);
    BatchIsStretch(l, log, log[s.lo..s.hi], s.lo, s.hi);
    ProbeEffect(l, s.hi, n, s.lo, s.hi);
    BeyondTheProbe(Batch(l, log[s.lo..s.hi]), s.hi, n, rest);
    assert ([s] + rest)[1..] == rest;
  }

  lemma ProbeStaysStale(n: nat, ss: seq<Stretch>, m: nat)
    requires Within(ss, n) && m < |ss| && Carries(ss[m])
    requires forall k: nat :: !TakesUp(ss, m, k)
    ensures var l := Commits(map[], Probe(ss[m].hi, n), ss); "t" in l && l["t"].amount == 1
  {
    var s, before, rest := ss[m], ss[..m], ss[m + 1..];
    assert ss == before + ([s] + rest);
    forall r | r in rest && Carries(r) ensures s.hi < r.lo {
      var k: nat :| k < |rest| && rest[k] == r;
      assert !TakesUp(ss, m, m + 1 + k);
    }
    CommitsConcat(map[], Probe(s.hi, n), before, [s] + rest);
    StaleAfter(Commits(map[], Probe(s.hi, n), before), n, s, rest);
  }

  lemma ProbeInFull(c: nat, n: nat, d: nat)
    requires c < d <= n
    ensures var l := Full(Probe(c, n), d); "t" in l && l["t"].amount == 2
  {
    ProbeEffect(map[], c, n, 0, d);
    assert Probe(c, n)[0..d] == Probe(c, n)[..d];
  }

  /** A log the commits get wrong, whenever they are not caught up. */
  lemma WrongForSomeLog(ss: seq<Stretch>, d: nat, n: nat) returns (log: seq<Page>)
    requires Within(ss, d) && d <= n && !Caught(ss, d)
    ensures |log| == n && ConsistentlyListed(log) && Commits(map[], log, ss) != Full(log, d)
  {
    if m: nat :| m < |ss| && !TakenUp(ss, m, d) {
      log := Probe(ss[m].hi, n);
      ProbeIsConsistent(ss[m].hi, n);
      ProbeStaysStale(n, ss, m);
      ProbeInFull(ss[m].hi, n, d);
    } else {
      log := Probe(0, n);
      ProbeIsConsistent(0, n);
      forall s | s in ss && Carries(s) ensures 0 < s.lo {
        var k: nat :| k < |ss| && ss[k] == s;
        assert !StartsTheLog(ss, k);
      }
      BeyondTheProbe(map[], 0, n, ss);
      ProbeInFull(0, n, d);
    }
  }

  lemma RightWhenCaught(log: seq<Page>, ss: seq<Stretch>, d: nat)
    requires ConsistentlyListed(log) && Within(ss, d) && d <= |log| && Caught(ss, d)
    ensures Commits(map[], log, ss) == Full(log, d)
  {
    TakenUpIsLinked(ss, d);
    LinkedFolds(map[], log, ss, d);
    if d > 0 {
      var k: nat :| StartsTheLog(ss, k);
      LeastIsLeast(ss, d, k);
    }
    assert log[0..d] == log[..d];
  }

  ghost predicate AllLogsComeOutRight(ss: seq<Stretch>, d: nat)
    requires Within(ss, d)
  {
    forall log: seq<Page> | |log| == d && ConsistentlyListed(log) :: Commits(map[], log, ss) == Full(log, d)
  }

  /** Any list of commits whatever leaves the one-pass ledger for every log exactly when it is
      caught up. */
  lemma CommitsAreRightExactly(ss: seq<Stretch>, d: nat)
    requires Within(ss, d)
    ensures AllLogsComeOutRight(ss, d) <==> Caught(ss, d)
  {
    if Caught(ss, d) {
      forall log: seq<Page> | |log| == d && ConsistentlyListed(log) ensures Commits(map[], log, ss) == Full(log, d) {
        RightWhenCaught(log, ss, d);
      }
    } else {
      var log := WrongForSomeLog(ss, d, d);
    }
  }

  /** A sync up to `h`, a late one over `lo..c` that moves the cursor back to `c`, and a third
      that had already started from `from`. */
  function ThreeSyncs(h: nat, lo: nat, c: nat, from: nat, d: nat): seq<Stretch> {
    [Stretch(0, h), Stretch(lo, c), Stretch(from, d)]
  }

  /** For three syncs: the third starts no later than where the late commit left the cursor, or
      the late commit carried nothing. */
  lemma LateOverlapIsRepairedExactly(h: nat, lo: nat, c: nat, from: nat, d: nat)
    requires lo <= c <= h && from <= h <= d
    ensures AllLogsComeOutRight(ThreeSyncs(h, lo, c, from, d), d) <==> from <= c || lo == c
  {
    var ss := ThreeSyncs(h, lo, c, from, d);
    CommitsAreRightExactly(ss, d);
    if from <= c || lo == c {
      assert d > 0 ==> StartsTheLog(ss, 0) || StartsTheLog(ss, 2);
      assert h != d ==> TakesUp(ss, 0, 2);
      assert lo < c != d ==> TakesUp(ss, 1, 2);
      forall n: nat | n < |ss| ensures TakenUp(ss, n, d) {}
    } else {
      assert !TakesUp(ss, 1, 2);
      assert !TakenUp(ss, 1, d);
    }
  }

  // ---------------------------------------------------------------- exactly which runs come out right

  /** The ledger is what the recorded commits make of the log. */
  ghost predicate Recorded(w: World) {
    && WellFormed(w) && Within(w.commits, w.high) && w.ledger == Commits(map[], w.log, w.commits)
  }

  /** One more commit of a stretch, however its pages end. */
  lemma OneMoreCommit(log: seq<Page>, ss: seq<Stretch>, s: Stretch, pages: seq<Page>)
    requires Within(ss, |log|) && Unbroken(log, pages, s.lo, s.hi)
    ensures Within(ss + [s], |log|)
    ensures Commits(map[], log, ss + [s]) == Batch(Commits(map[], log, ss), pages)
  {
    var l := Commits(map[], log, ss);
    if pages != log[s.lo..s.hi] { TrailingEmpty(l, log[s.lo..s.hi]); }
    CommitsConcat(map[], log, ss, [s]);
    assert Commits(l, log, [s]) == Commits(Batch(l, log[s.lo..s.hi]), log, []);
  }

  lemma StepRecorded(w: World, a: Action)
    requires Recorded(w)
    ensures Recorded(Apply(w, a))
  {
    StepWellFormed(w, a);
    if a.Commit? && a.id in w.flights && w.flights[a.id].Ready? {
      var f := w.flights[a.id];
      assert FlightOk(w, f);
      OneMoreCommit(w.log, w.commits, Stretch(f.original, f.cursor), f.pages);
    } else if a.Publish? {
      CommitsLonger(map[], w.log, Apply(w, a).log, w.commits);
    }
  }

  lemma {:induction false} RunRecorded(w: World, actions: seq<Action>)
    requires Recorded(w)
    ensures Recorded(Run(w, actions))
    decreases |actions|
  {
    if actions != [] {
      StepRecorded(w, actions[0]);
      RunRecorded(Apply(w, actions[0]), actions[1..]);
    }
  }

  /** The same run with other pages published. */
  function WithPages(actions: seq<Action>, pages: seq<Page>): seq<Action> {
    if actions == [] then []
    else if actions[0].Publish? && pages != [] then [Publish(pages[0])] + WithPages(actions[1..], pages[1..])
    else [actions[0]] + WithPages(actions[1..], pages)
  }

  predicate SameFlight(f: Flight, g: Flight) {
    f.original == g.original && (f.Ready? <==> g.Ready?) && (f.Ready? && g.Ready? ==> f.cursor == g.cursor)
  }

  /** Two worlds that differ only in what the pages say. */
  ghost predicate Alike(w: World, v: World) {
    && w.cursor == v.cursor && w.high == v.high && w.commits == v.commits && |w.log| == |v.log|
    && w.flights.Keys == v.flights.Keys
    && (forall id | id in w.flights :: SameFlight(w.flights[id], v.flights[id]))
  }

  predicate SameLoad(r: Loaded, q: Loaded) {
    match r
    case LoadFailed(code) => q == LoadFailed(code)
    case Pages(_, end) => q.Pages? && q.cursor == end
  }

  lemma {:induction false} PaginateAlike(log: seq<Page>, other: seq<Page>, cursor: nat, answers: nat -> Answer)
    requires cursor <= |log| == |other|
    ensures SameLoad(Paginate(log, cursor, answers), Paginate(other, cursor, answers))
    decreases |log| - cursor
  {
    if cursor < |log| { PaginateAlike(log, other, cursor + 1, answers); }
  }

  lemma {:induction false} LoadAlike(log: seq<Page>, other: seq<Page>, original: nat,
        answers: nat -> nat -> Answer, attempt: nat)
    requires original <= |log| == |other| && attempt < MAX_LOADS
    ensures SameLoad(Load(log, original, answers, attempt), Load(other, original, answers, attempt))
    decreases MAX_LOADS - attempt
  {
    PaginateAlike(log, other, original, answers(attempt));
    if attempt < MAX_LOADS - 1 { LoadAlike(log, other, original, answers, attempt + 1); }
  }

  lemma StepAlike(w: World, v: World, a: Action, b: Action)
    requires WellFormed(w) && WellFormed(v) && Alike(w, v) && (a == b || (a.Publish? && b.Publish?))
    ensures Alike(Apply(w, a), Apply(v, b)) && WellFormed(Apply(w, a)) && WellFormed(Apply(v, b))
    ensures Apply(v, b).log == if b.Publish? then v.log + [b.page] else v.log
  {
    StepWellFormed(w, a);
    StepWellFormed(v, b);
    if a.LoadPages? && a.id in w.flights {
      assert SameFlight(w.flights[a.id], v.flights[a.id]);
      assert FlightOk(w, w.flights[a.id]);
      LoadAlike(w.log, v.log, w.flights[a.id].original, a.answers, 0);
    }
    if a.Commit? && a.id in w.flights { assert SameFlight(w.flights[a.id], v.flights[a.id]); }
  }

  lemma RunGrowsLogBy(w: World, actions: seq<Action>)
    requires WellFormed(w) && actions != []
    ensures var w' := Apply(w, actions[0]);
      && WellFormed(w') && |w'.log| == |w.log| + (if actions[0].Publish? then 1 else 0)
      && |w'.log| <= |Run(w, actions).log|
  {
    StepWellFormed(w, actions[0]);
    RunGrowsLog(Apply(w, actions[0]), actions[1..]);
  }

  lemma {:induction false} RunAlike(w: World, v: World, actions: seq<Action>, pages: seq<Page>)
    requires WellFormed(w) && WellFormed(v) && Alike(w, v)
    requires |pages| == |Run(w, actions).log| - |w.log|
    ensures Alike(Run(w, actions), Run(v, WithPages(actions, pages)))
    ensures Run(v, WithPages(actions, pages)).log == v.log + pages
    decreases |actions|
  {
    if actions != [] {
      var a, w' := actions[0], Apply(w, actions[0]);
      RunGrowsLogBy(w, actions);
      var b := if a.Publish? then Publish(pages[0]) else a;
      var rest := if a.Publish? then pages[1..] else pages;
      StepAlike(w, v, a, b);
      var v' := Apply(v, b);
      RunAlike(w', v', actions[1..], rest);
      var replaced := WithPages(actions, pages);
      assert replaced == [b] + WithPages(actions[1..], rest);
      assert v'.log + rest == v.log + pages;
      assert Run(v, replaced) == Run(v', replaced[1..]);
    }
  }

  /** The run over a given log leaves, after one more sync up to `e`, the one-pass ledger. */
  ghost predicate RefinedBy(actions: seq<Action>, log: seq<Page>, e: nat) {
    var v := Run(Empty, WithPages(actions, log));
    v.cursor <= e <= |v.log| && Batch(v.ledger, v.log[v.cursor..e]) == Full(v.log, e)
  }

  /** The run over a given log leaves the one-pass ledger up to the furthest commit. */
  ghost predicate RightOver(actions: seq<Action>, log: seq<Page>) {
    var v := Run(Empty, WithPages(actions, log));
    v.high <= |v.log| && v.ledger == Full(v.log, v.high)
  }

  ghost predicate AlwaysRefined(actions: seq<Action>, e: nat) {
    forall log: seq<Page> | |log| == |Run(Empty, actions).log| && ConsistentlyListed(log) :: RefinedBy(actions, log, e)
  }

  ghost predicate AlwaysRight(actions: seq<Action>) {
    forall log: seq<Page> | |log| == |Run(Empty, actions).log| && ConsistentlyListed(log) :: RightOver(actions, log)
  }

  /** The run over a given log makes the same commits. */
  lemma SameCommits(actions: seq<Action>, log: seq<Page>)
    requires |log| == |Run(Empty, actions).log|
    ensures var w, v := Run(Empty, actions), Run(Empty, WithPages(actions, log));
      && v.log == log && v.cursor == w.cursor <= v.high == w.high <= |log|
      && Within(w.commits, w.high) && v.ledger == Commits(map[], log, w.commits)
  {
    RunRecorded(Empty, actions);
    RunRecorded(Empty, WithPages(actions, log));
    RunAlike(Empty, Empty, actions, log);
    assert Run(Empty, WithPages(actions, log)).log == log;
  }

  /** So it comes out right when its list of commits does. */
  lemma RunAsCommits(actions: seq<Action>, log: seq<Page>, e: nat)
    requires |log| == |Run(Empty, actions).log| && Run(Empty, actions).high <= e <= |log|
    ensures var w := Run(Empty, actions);
      && Within(w.commits, w.high) && Within(w.commits + [Stretch(w.cursor, e)], e)
      && (RightOver(actions, log) <==> Commits(map[], log, w.commits) == Full(log, w.high))
      && (RefinedBy(actions, log, e) <==> Commits(map[], log, w.commits + [Stretch(w.cursor, e)]) == Full(log, e))
  {
    SameCommits(actions, log);
    var w := Run(Empty, actions);
    OneMoreCommit(log, w.commits, Stretch(w.cursor, e), log[w.cursor..e]);
  }

  /** For every run, skipping and late commits included: the next sync, up to any `e` at least as
      far as any before it, leaves the one-pass ledger whatever the pages say, exactly when the
      commits of the run with that sync are caught up. */
  lemma LedgerRefinesTheLog(actions: seq<Action>, e: nat)
    requires Run(Empty, actions).high <= e <= |Run(Empty, actions).log|
    ensures var w := Run(Empty, actions);
      AlwaysRefined(actions, e) <==> Caught(w.commits + [Stretch(w.cursor, e)], e)
  {
    var w := Run(Empty, actions);
    var ss := w.commits + [Stretch(w.cursor, e)];
    RunAsCommits(actions, w.log, e);
    if Caught(ss, e) {
      forall log: seq<Page> | |log| == |w.log| && ConsistentlyListed(log) ensures RefinedBy(actions, log, e) {
        RunAsCommits(actions, log, e);
        RightWhenCaught(log, ss, e);
      }
    } else {
      var log := WrongForSomeLog(ss, e, |w.log|);
      RunAsCommits(actions, log, e);
      assert !RefinedBy(actions, log, e);
    }
  }

  /** And the ledger already is that, up to the furthest commit, exactly when the commits of the
      run itself are. */
  lemma LedgerIsRightExactly(actions: seq<Action>)
    ensures var w := Run(Empty, actions); AlwaysRight(actions) <==> Caught(w.commits, w.high)
  {
    var w := Run(Empty, actions);
    RunGrowsLog(Empty, actions);
    RunAsCommits(actions, w.log, w.high);
    if Caught(w.commits, w.high) {
      forall log: seq<Page> | |log| == |w.log| && ConsistentlyListed(log) ensures RightOver(actions, log) {
        RunAsCommits(actions, log, w.high);
        RightWhenCaught(log, w.commits, w.high);
      }
    } else {
      var log := WrongForSomeLog(w.commits, w.high, |w.log|);
      RunAsCommits(actions, log, w.high);
      assert !RightOver(actions, log);
    }
  }

  /** Each commit starts no later than where the one before it ended, and the cursor is where
      the last one ended. */
  predicate Chained(ss: seq<Stretch>, cursor: nat) {
    && cursor == EndOf(ss, |ss|)
    && forall k: nat | k < |ss| :: ss[k].lo <= EndOf(ss, k)
  }

  function EndOf(ss: seq<Stretch>, k: nat): nat
    requires k <= |ss|
  {
    if k == 0 then 0 else ss[k - 1].hi
  }

  lemma ChainedMore(ss: seq<Stretch>, cursor: nat, s: Stretch)
    requires Chained(ss, cursor) && s.lo <= cursor
    ensures Chained(ss + [s], s.hi)
  {
    var more := ss + [s];
    forall k: nat | k < |more| ensures more[k].lo <= EndOf(more, k) {
      if k < |ss| { assert ss[k].lo <= EndOf(ss, k); }
    }
  }

  lemma {:induction false} NeverSkippingIsChained(w: World, actions: seq<Action>)
    requires WellFormed(w) && NeverSkips(w, actions) && Chained(w.commits, w.cursor)
    ensures Chained(Run(w, actions).commits, Run(w, actions).cursor)
    decreases |actions|
  {
    if actions != [] {
      var a := actions[0];
      StepWellFormed(w, a);
      if a.Commit? && a.id in w.flights && w.flights[a.id].Ready? {
        ChainedMore(w.commits, w.cursor, Stretch(w.flights[a.id].original, w.flights[a.id].cursor));
      }
      NeverSkippingIsChained(Apply(w, a), actions[1..]);
    }
  }

  lemma {:induction false} ChainGoesOn(ss: seq<Stretch>, d: nat, k: nat, y: nat) returns (next: nat)
    requires Chained(ss, d) && Within(ss, d) && k <= |ss| && EndOf(ss, k) <= y < d
    ensures k <= next < |ss| && Carries(ss[next]) && ss[next].lo <= y
    decreases |ss| - k
  {
    assert ss[k] in ss && ss[k].lo <= EndOf(ss, k);
    if Carries(ss[k]) {
      next := k;
    } else {
      next := ChainGoesOn(ss, d, k + 1, y);
    }
  }

  lemma ChainedIsCaught(ss: seq<Stretch>, d: nat)
    requires Chained(ss, d) && Within(ss, d)
    ensures Caught(ss, d)
  {
    if d > 0 {
      var k := ChainGoesOn(ss, d, 0, 0);
      assert StartsTheLog(ss, k);
    }
    forall n: nat | n < |ss| ensures TakenUp(ss, n, d) {
      assert ss[n] in ss;
      if ss[n].hi != d {
        var k := ChainGoesOn(ss, d, n + 1, ss[n].hi);
        assert TakesUp(ss, n, k);
      }
    }
  }

  /** In particular every run that never skips ahead is caught up by its next sync. */
  lemma NeverSkippingIsCaught(actions: seq<Action>, e: nat)
    requires NeverSkips(Empty, actions) && Run(Empty, actions).high <= e <= |Run(Empty, actions).log|
    ensures var w := Run(Empty, actions); Caught(w.commits + [Stretch(w.cursor, e)], e)
  {
    var w := Run(Empty, actions);
    NeverSkippingIsChained(Empty, actions);
    RunAsCommits(actions, w.log, e);
    ChainedMore(w.commits, w.cursor, Stretch(w.cursor, e));
    ChainedIsCaught(w.commits + [Stretch(w.cursor, e)], e);
  }

  // ---------------------------------------------------------------- a run that ends wrong

  function UpTo(n: nat): nat -> nat -> Answer {
    attempt => cursor => Served(cursor + 1 < n)
  }

  /** What a run leads to, the ledger apart. */
  ghost predicate Reaches(actions: seq<Action>, v: World) {
    var w := Run(Empty, actions);
    WellFormed(w) && WellFormed(v) && v == w.(ledger := map[])
  }

  lemma Next(actions: seq<Action>, v: World, a: Action, v': World) returns (longer: seq<Action>)
    requires Reaches(actions, v) && v' == Apply(v, a).(ledger := map[])
    ensures longer == actions + [a] && Reaches(longer, v')
  {
    longer := actions + [a];
    RunSplit(Empty, actions, [a]);
    var w := Run(Empty, actions);
    StepWellFormed(w, a);
    StepWellFormed(v, a);
    assert [a][1..] == [] && Run(w, [a]) == Run(Apply(w, a), []);
    assert Apply(w, a) == Apply(v, a).(ledger := Apply(w, a).ledger);
  }

  lemma LoadsUpTo(log: seq<Page>, lo: nat, hi: nat)
    requires lo < hi <= |log|
    ensures Load(log, lo, UpTo(hi), 0) == Pages(log[lo..hi], hi)
  {
    PaginatesUpTo(log, lo, hi);
  }

  lemma {:induction false} PaginatesUpTo(log: seq<Page>, lo: nat, hi: nat)
    requires lo < hi <= |log|
    ensures Paginate(log, lo, UpTo(hi)(0)) == Pages(log[lo..hi], hi)
    decreases hi - lo
  {
    if lo + 1 < hi { PaginatesUpTo(log, lo + 1, hi); }
    assert log[lo..hi] == [log[lo]] + log[lo + 1..hi];
  }

  const TwoPages := [EmptyPage, EmptyPage]

  lemma TwoSyncsBegin() returns (run: seq<Action>)
    ensures Reaches(run, World(TwoPages, map[], 0, 0, map[0 := Started(0), 1 := Started(0)], []))
  {
    var v := Empty;
    run := [];
    run := Next(run, v, Publish(EmptyPage), v.(log := [EmptyPage]));
    v := v.(log := [EmptyPage]);
    run := Next(run, v, Publish(EmptyPage), v.(log := TwoPages));
    v := v.(log := TwoPages);
    run := Next(run, v, Begin(0), v.(flights := map[0 := Started(0)]));
    v := v.(flights := map[0 := Started(0)]);
    run := Next(run, v, Begin(1), v.(flights := map[0 := Started(0), 1 := Started(0)]));
  }

  /** Both began at 0; the first loads both pages, the second only one. */
  lemma TwoSyncsLoad() returns (run: seq<Action>)
    ensures Reaches(run,
      World(TwoPages, map[], 0, 0, map[0 := Ready(0, TwoPages, 2), 1 := Ready(0, [EmptyPage], 1)], []))
  {
    run := TwoSyncsBegin();
    LoadsUpTo(TwoPages, 0, 2);
    LoadsUpTo(TwoPages, 0, 1);
    assert TwoPages[0..2] == TwoPages && TwoPages[0..1] == [EmptyPage];
    var v := World(TwoPages, map[], 0, 0, map[0 := Started(0), 1 := Started(0)], []);
    var loaded := map[0 := Ready(0, TwoPages, 2), 1 := Started(0)];
    run := Next(run, v, LoadPages(0, UpTo(2)), v.(flights := loaded));
    v := v.(flights := loaded);
    run := Next(run, v, LoadPages(1, UpTo(1)), v.(flights := loaded[1 := Ready(0, [EmptyPage], 1)]));
  }

  /** The first commits, a third sync begins after it, and only then the second commits, behind
      the third; the third commits a page published meanwhile. */
  lemma TheThirdSkips() returns (run: seq<Action>)
    ensures Reaches(run, World(TwoPages + [EmptyPage], map[], 3, 3, map[],
      [Stretch(0, 2), Stretch(0, 1), Stretch(2, 3)]))
  {
    run := TwoSyncsLoad();
    var late := Ready(0, [EmptyPage], 1);
    var v := World(TwoPages, map[], 0, 0, map[0 := Ready(0, TwoPages, 2), 1 := late], []);
    var v1 := World(TwoPages, map[], 2, 2, map[1 := late], [Stretch(0, 2)]);
    run := Next(run, v, Commit(0), v1);
    var v2 := v1.(flights := map[1 := late, 2 := Started(2)]);
    run := Next(run, v1, Begin(2), v2);
    var v3 := World(TwoPages, map[], 1, 2, map[2 := Started(2)], [Stretch(0, 2), Stretch(0, 1)]);
    run := Next(run, v2, Commit(1), v3);
    var v4 := v3.(log := TwoPages + [EmptyPage]);
    run := Next(run, v3, Publish(EmptyPage), v4);
    LoadsUpTo(v4.log, 2, 3);
    var v5 := v4.(flights := map[2 := Ready(2, [EmptyPage], 3)]);
    assert v4.log[2..3] == [EmptyPage];
    run := Next(run, v4, LoadPages(2, UpTo(3)), v5);
    var v6 := World(v4.log, map[], 3, 3, map[], [Stretch(0, 2), Stretch(0, 1), Stretch(2, 3)]);
    run := Next(run, v5, Commit(2), v6);
  }

  ghost predicate EndsWrong(actions: seq<Action>) {
    var w := Run(Empty, actions);
    WellFormed(w) && ConsistentlyListed(w.log) && w.cursor == w.high && w.ledger != Full(w.log, w.cursor)
  }

  lemma CanEndWrong(actions: seq<Action>)
    requires !AlwaysRight(actions) && Run(Empty, actions).cursor == Run(Empty, actions).high
    ensures exists run :: EndsWrong(run)
  {
    var w := Run(Empty, actions);
    var log: seq<Page> :| |log| == |w.log| && ConsistentlyListed(log) && !RightOver(actions, log);
    RunAlike(Empty, Empty, actions, log);
    RunGrowsLog(Empty, WithPages(actions, log));
    assert Run(Empty, WithPages(actions, log)).log == log;
    assert EndsWrong(WithPages(actions, log));
  }

  /** So, over some log, the cursor can stand at the furthest commit with the ledger wrong. */
  lemma LateOverlapCanEndWrong()
    ensures exists run :: EndsWrong(run)
  {
    var run := TheThirdSkips();
    var ss := Run(Empty, run).commits;
    assert ss == [Stretch(0, 2), Stretch(0, 1), Stretch(2, 3)];
    assert forall k: nat :: !TakesUp(ss, 1, k);
    assert !TakenUp(ss, 1, 3);
    LedgerIsRightExactly(run);
    CanEndWrong(run);
  }
}
