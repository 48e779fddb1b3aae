/**
 Seeding a new workspace app with records (services/generated_apps.py): participants go first,
 every seed passes the same checks as a created record, and one refusal refuses the app.
 */
module SplitSeeding {
  import opened Options
  import opened SplitExpenses

  datatype Seed = Seed(moduleId: string, kind: string, data: Data)

  const MAX_SEEDS := 200

  predicate First(s: Seed) { s.kind == "participant" }

  function Picked(seeds: seq<Seed>, first: bool): seq<Seed> {
    if seeds == [] then []
    else Picked(seeds[..|seeds| - 1], first) + (if First(seeds[|seeds| - 1]) == first then [seeds[|seeds| - 1]] else [])
  }

  /** The stable sort that puts participants before everything else. */
  function Sorted(seeds: seq<Seed>): seq<Seed> { Picked(seeds, true) + Picked(seeds, false) }

  function SeedAll(app: App, r: Rules, seeds: seq<Seed>): Option<Records> {
    if seeds == [] then Some(map[])
    else
      var before := SeedAll(app, r, seeds[..|seeds| - 1]);
      if before.None? then None else Added(app, r, before.value, seeds[|seeds| - 1], |seeds| - 1)
  }

  function Added(app: App, r: Rules, records: Records, s: Seed, id: nat): Option<Records> {
    var record := Checked(app, r, records, None, Some(s.moduleId), s.kind, s.data);
    if record.None? then None else Some(records[id := record.value])
  }

  function Seeded(app: App, r: Rules, seeds: seq<Seed>): Option<Records> {
    if |seeds| > MAX_SEEDS then None else SeedAll(app, r, Sorted(seeds))
  }

  method CreateInOrder(app: App, r: Rules, seeds: seq<Seed>) returns (stored: Option<Records>)
    ensures stored == SeedAll(app, r, seeds)
    ensures stored.Some? ==> Numbered(app, r, stored.value, |seeds|)
  {
    stored := Some(map[]);
    for i := 0 to |seeds|
      invariant stored.Some? && SeedAll(app, r, seeds[..i]) == stored && Numbered(app, r, stored.value, i)
    {
      SeedNext(app, r, seeds, i, stored.value);
      stored := Added(app, r, stored.value, seeds[i], i);
      if stored.None? {
        RefusalIsFinal(app, r, seeds, i + 1);
        return;
      }
    }
    assert seeds[..|seeds|] == seeds;
  }

  /** The app is created with one record per seed and the invariant, or not at all. */
  method CreateRecords(app: App, r: Rules, seeds: seq<Seed>) returns (stored: Option<Records>)
    requires app.Workspace?
    ensures stored == Seeded(app, r, seeds)
    ensures stored.Some? ==> Inv(app, r, stored.value) && |stored.value| == |seeds|
  {
    if |seeds| > MAX_SEEDS { return None; }
    SortedKeepsAll(seeds);
    assert |multiset(Sorted(seeds))| == |Sorted(seeds)| && |multiset(seeds)| == |seeds|;
    stored := CreateInOrder(app, r, Sorted(seeds));
  }

  ghost predicate Numbered(app: App, r: Rules, records: Records, n: nat) {
    Inv(app, r, records) && |records| == n && (forall id | id in records :: id < n)
  }

  lemma AddedKeeps(app: App, r: Rules, records: Records, s: Seed, i: nat)
    requires Numbered(app, r, records, i) && Added(app, r, records, s, i).Some?
    ensures Numbered(app, r, Added(app, r, records, s, i).value, i + 1)
  {
    CreateKeepsInv(app, r, records, Some(s.moduleId), s.kind, s.data, i);
  }

  lemma SeedNext(app: App, r: Rules, seeds: seq<Seed>, i: nat, records: Records)
    requires i < |seeds| && SeedAll(app, r, seeds[..i]) == Some(records) && Numbered(app, r, records, i)
    ensures SeedAll(app, r, seeds[..i + 1]) == Added(app, r, records, seeds[i], i)
    ensures Added(app, r, records, seeds[i], i).Some? ==>
      Numbered(app, r, Added(app, r, records, seeds[i], i).value, i + 1)
  {
    assert seeds[..i + 1][..i] == seeds[..i];
    if Added(app, r, records, seeds[i], i).Some? { AddedKeeps(app, r, records, seeds[i], i); }
  }

  lemma {:induction false} RefusalIsFinal(app: App, r: Rules, seeds: seq<Seed>, i: nat)
    requires i <= |seeds| && SeedAll(app, r, seeds[..i]).None?
    ensures SeedAll(app, r, seeds).None?
    decreases |seeds| - i
  {
    if i == |seeds| {
      assert seeds[..i] == seeds;
    } else {
      assert seeds[..i + 1][..i] == seeds[..i];
      RefusalIsFinal(app, r, seeds, i + 1);
    }
  }

  lemma {:induction false} SortedKeepsAll(seeds: seq<Seed>)
    ensures multiset(Sorted(seeds)) == multiset(seeds)
  {
    if seeds != [] {
      var init, last := seeds[..|seeds| - 1], seeds[|seeds| - 1];
      SortedKeepsAll(init);
      assert seeds == init + [last];
    }
  }

  lemma {:induction false} PickedAre(seeds: seq<Seed>, first: bool)
    ensures forall i | 0 <= i < |Picked(seeds, first)| :: First(Picked(seeds, first)[i]) == first
  {
    if seeds != [] { PickedAre(seeds[..|seeds| - 1], first); }
  }

  lemma ParticipantsComeFirst(seeds: seq<Seed>, j: nat, k: nat)
    requires j < |Sorted(seeds)| && k < |Sorted(seeds)| && First(Sorted(seeds)[j]) && !First(Sorted(seeds)[k])
    ensures j < k
  {
    PickedAre(seeds, true);
    PickedAre(seeds, false);
  }

  // ---------------------------------------------------------------- one seed at a time

  /** The record the seed would become; nothing when it is malformed. */
  function Formed(app: App, r: Rules, s: Seed): Option<Record> {
    var target := Resolved(app, Some(s.moduleId), s.kind);
    if target.None? then None
    else
      var data := Validated(app, r, target.value, s.kind, s.data);
      if data.None? then None else Some(Record(target.value, s.kind, data.value))
  }

  predicate Clashing(app: App, r: Rules, s: Seed, t: Seed) {
    var a, b := Formed(app, r, s), Formed(app, r, t);
    a.Some? && b.Some? && Clash(r, a.value, b.value)
  }

  predicate Provides(app: App, r: Rules, s: Seed, moduleId: string, name: string) {
    Formed(app, r, s).Some? && IsParticipant(Formed(app, r, s).value, moduleId, name)
  }

  /** The people a seed needs; only split expenses need any. */
  function Needs(app: App, r: Rules, s: Seed): seq<string> {
    var a := Formed(app, r, s);
    if a.Some? && IsSplitExpense(app, a.value) then People(a.value.data) else []
  }

  ghost predicate ProvidedBelow(app: App, r: Rules, seeds: seq<Seed>, k: nat, s: Seed, name: string) {
    && k <= |seeds|
    && (exists j :: 0 <= j < k && Provides(app, r, seeds[j], s.moduleId, name))
  }

  /** The seed is acceptable after the ones before it. */
  ghost predicate StepOk(app: App, r: Rules, seeds: seq<Seed>, k: nat) {
    && k < |seeds|
    && Formed(app, r, seeds[k]).Some?
    && (forall j | 0 <= j < k :: !Clashing(app, r, seeds[j], seeds[k]))
    && NeedsMet(app, r, seeds, k)
  }

  ghost predicate StepsOk(app: App, r: Rules, seeds: seq<Seed>, n: nat) {
    && n <= |seeds|
    && (forall k: nat {:trigger StepOk(app, r, seeds, k)} | k < n :: StepOk(app, r, seeds, k))
  }

  /** The records are exactly those of the seeds so far. */
  ghost predicate Holds(app: App, r: Rules, seeds: seq<Seed>, n: nat, records: Records) {
    && n <= |seeds|
    && (forall id | id in records :: id < n)
    && (forall k: nat {:trigger RecordOf(app, r, seeds, k, records)} | k < n :: RecordOf(app, r, seeds, k, records))
  }

  predicate RecordOf(app: App, r: Rules, seeds: seq<Seed>, k: nat, records: Records) {
    k < |seeds| && k in records && Formed(app, r, seeds[k]) == Some(records[k])
  }

  lemma CheckedIsStepOk(app: App, r: Rules, seeds: seq<Seed>, k: nat, records: Records)
    requires app.Workspace? && k < |seeds| && Holds(app, r, seeds, k, records)
    ensures var record := Checked(app, r, records, None, Some(seeds[k].moduleId), seeds[k].kind, seeds[k].data);
      && (record.Some? <==> StepOk(app, r, seeds, k))
      && (record.Some? ==> record == Formed(app, r, seeds[k]))
  {
    var formed := Formed(app, r, seeds[k]);
    if formed.Some? {
      ClashesBelow(app, r, seeds, k, records, formed.value);
      if IsSplitExpense(app, formed.value) { PresentBelow(app, r, seeds, k, records, formed.value); }
    }
  }

  lemma ClashesBelow(app: App, r: Rules, seeds: seq<Seed>, k: nat, records: Records, record: Record)
    requires k < |seeds| && Holds(app, r, seeds, k, records) && Formed(app, r, seeds[k]) == Some(record)
    ensures Clashes(r, records, None, record) <==> exists j :: 0 <= j < k && Clashing(app, r, seeds[j], seeds[k])
  {
    if id :| id in records && Clash(r, records[id], record) {
      assert RecordOf(app, r, seeds, id, records);
      assert Clashing(app, r, seeds[id], seeds[k]);
    }
    if j :| 0 <= j < k && Clashing(app, r, seeds[j], seeds[k]) {
      assert RecordOf(app, r, seeds, j, records);
      assert Clash(r, records[j], record);
    }
  }

  lemma NamePresentBelow(app: App, r: Rules, seeds: seq<Seed>, k: nat, records: Records, name: string)
    requires k < |seeds| && Holds(app, r, seeds, k, records)
    ensures IsPresent(records, seeds[k].moduleId, name) <==> ProvidedBelow(app, r, seeds, k, seeds[k], name)
  {
    if id :| id in records && IsParticipant(records[id], seeds[k].moduleId, name) {
      assert RecordOf(app, r, seeds, id, records);
      assert Provides(app, r, seeds[id], seeds[k].moduleId, name);
    }
    if j :| 0 <= j < k && Provides(app, r, seeds[j], seeds[k].moduleId, name) {
      assert RecordOf(app, r, seeds, j, records);
      assert IsParticipant(records[j], seeds[k].moduleId, name);
    }
  }

  ghost predicate NeedsMet(app: App, r: Rules, seeds: seq<Seed>, k: nat) {
    && k < |seeds|
    && (forall i | 0 <= i < |Needs(app, r, seeds[k])| ::
         ProvidedBelow(app, r, seeds, k, seeds[k], Needs(app, r, seeds[k])[i]))
  }

  lemma PresentBelow(app: App, r: Rules, seeds: seq<Seed>, k: nat, records: Records, record: Record)
    requires app.Workspace? && k < |seeds| && Holds(app, r, seeds, k, records)
    requires Formed(app, r, seeds[k]) == Some(record) && IsSplitExpense(app, record)
    ensures EveryonePresent(records, record) <==> NeedsMet(app, r, seeds, k)
  {
    var people := People(record.data);
    assert Needs(app, r, seeds[k]) == people && record.moduleId == seeds[k].moduleId;
    forall i | 0 <= i < |people|
      ensures IsPresent(records, record.moduleId, people[i]) <==> ProvidedBelow(app, r, seeds, k, seeds[k], people[i])
    {
      NamePresentBelow(app, r, seeds, k, records, people[i]);
    }
  }

  lemma HoldsMore(app: App, r: Rules, seeds: seq<Seed>, k: nat, records: Records, record: Record)
    requires k < |seeds| && Holds(app, r, seeds, k, records) && Formed(app, r, seeds[k]) == Some(record)
    ensures Holds(app, r, seeds, k + 1, records[k := record])
  {
    var more := records[k := record];
    forall j: nat | j < k + 1 ensures RecordOf(app, r, seeds, j, more) {
      assert j < k ==> RecordOf(app, r, seeds, j, records);
    }
  }

  /** Seeding in a given order succeeds exactly when each seed is acceptable in its turn. */
  lemma {:induction false} SeedAllExactly(app: App, r: Rules, seeds: seq<Seed>, n: nat)
    requires app.Workspace? && n <= |seeds|
    ensures SeedAll(app, r, seeds[..n]).Some? <==> StepsOk(app, r, seeds, n)
    ensures SeedAll(app, r, seeds[..n]).Some? ==> Holds(app, r, seeds, n, SeedAll(app, r, seeds[..n]).value)
  {
    if n > 0 {
      assert seeds[..n][..n - 1] == seeds[..n - 1];
      SeedAllExactly(app, r, seeds, n - 1);
      var before := SeedAll(app, r, seeds[..n - 1]);
      if before.Some? {
        var last := seeds[n - 1];
        CheckedIsStepOk(app, r, seeds, n - 1, before.value);
        var record := Checked(app, r, before.value, None, Some(last.moduleId), last.kind, last.data);
        if record.Some? { HoldsMore(app, r, seeds, n - 1, before.value, record.value); }
      }
    }
  }

  // ---------------------------------------------------------------- a closed form

  ghost predicate Provided(app: App, r: Rules, seeds: multiset<Seed>, s: Seed, name: string) {
    exists t :: t in seeds && Provides(app, r, t, s.moduleId, name)
  }

  /** Every seed is well formed, no two names clash, and everyone an expense names is seeded. */
  ghost predicate SeedsOk(app: App, r: Rules, seeds: multiset<Seed>) {
    && (forall s | s in seeds :: Formed(app, r, s).Some?)
    && (forall s, t | s in seeds && t in seeds && Clashing(app, r, s, t) :: s == t && seeds[s] == 1)
    && (forall s | s in seeds ::
         forall i | 0 <= i < |Needs(app, r, s)| :: Provided(app, r, seeds, s, Needs(app, r, s)[i]))
  }

  lemma CountTwice(seeds: seq<Seed>, j: nat, k: nat)
    requires j < k < |seeds| && seeds[j] == seeds[k]
    ensures multiset(seeds)[seeds[k]] >= 2
  {
    assert seeds == seeds[..k] + [seeds[k]] + seeds[k + 1..];
    assert seeds[..k][j] == seeds[k];
    assert seeds[k] in multiset(seeds[..k]);
  }

  lemma {:induction false} TwoPlaces(seeds: seq<Seed>, s: Seed) returns (j: nat, k: nat)
    requires multiset(seeds)[s] >= 2
    ensures j < k < |seeds| && seeds[j] == seeds[k] == s
  {
    var init, last := seeds[..|seeds| - 1], seeds[|seeds| - 1];
    assert seeds == init + [last];
    if last == s {
      assert s in multiset(init);
      j :| 0 <= j < |init| && init[j] == s;
      k := |init|;
    } else {
      j, k := TwoPlaces(init, s);
    }
  }

  lemma StepsImplySeedsOk(app: App, r: Rules, seeds: seq<Seed>)
    requires StepsOk(app, r, seeds, |seeds|)
    ensures SeedsOk(app, r, multiset(seeds))
  {
    var all := multiset(seeds);
    forall s | s in all
      ensures Formed(app, r, s).Some? &&
        forall i | 0 <= i < |Needs(app, r, s)| :: Provided(app, r, all, s, Needs(app, r, s)[i])
    {
      var k :| 0 <= k < |seeds| && seeds[k] == s;
      assert StepOk(app, r, seeds, k);
      forall i | 0 <= i < |Needs(app, r, s)| ensures Provided(app, r, all, s, Needs(app, r, s)[i]) {
        assert ProvidedBelow(app, r, seeds, k, s, Needs(app, r, s)[i]);
        var j :| 0 <= j < k && Provides(app, r, seeds[j], s.moduleId, Needs(app, r, s)[i]);
        assert seeds[j] in all;
      }
    }
    forall s, t | s in all && t in all && Clashing(app, r, s, t) ensures s == t && all[s] == 1 {
      NoClashInSteps(app, r, seeds, s, t);
    }
  }

  lemma StepsDoNotClash(app: App, r: Rules, seeds: seq<Seed>, j: nat, k: nat)
    requires StepsOk(app, r, seeds, |seeds|) && j < k < |seeds|
    ensures !Clashing(app, r, seeds[j], seeds[k])
  {
    assert StepOk(app, r, seeds, k);
  }

  lemma NoClashInSteps(app: App, r: Rules, seeds: seq<Seed>, s: Seed, t: Seed)
    requires StepsOk(app, r, seeds, |seeds|) && s in multiset(seeds) && t in multiset(seeds) && Clashing(app, r, s, t)
    ensures s == t && multiset(seeds)[s] == 1
  {
    if s != t {
      var j :| 0 <= j < |seeds| && seeds[j] == s;
      var k :| 0 <= k < |seeds| && seeds[k] == t;
      assert Clashing(app, r, t, s);
      if j < k { StepsDoNotClash(app, r, seeds, j, k); } else { StepsDoNotClash(app, r, seeds, k, j); }
    } else if multiset(seeds)[s] >= 2 {
      var j, k := TwoPlaces(seeds, s);
      StepsDoNotClash(app, r, seeds, j, k);
    }
  }

  lemma PairDoesNotClash(app: App, r: Rules, seeds: seq<Seed>, j: nat, k: nat)
    requires SeedsOk(app, r, multiset(seeds)) && j < k < |seeds|
    ensures !Clashing(app, r, seeds[j], seeds[k])
  {
    assert seeds[j] in multiset(seeds) && seeds[k] in multiset(seeds);
    if seeds[j] == seeds[k] { CountTwice(seeds, j, k); }
  }

  lemma NeedMetInOrder(app: App, r: Rules, input: seq<Seed>, k: nat, name: string)
    requires k < |Sorted(input)| && !First(Sorted(input)[k])
    requires Provided(app, r, multiset(Sorted(input)), Sorted(input)[k], name)
    ensures ProvidedBelow(app, r, Sorted(input), k, Sorted(input)[k], name)
  {
    var seeds := Sorted(input);
    var t :| t in multiset(seeds) && Provides(app, r, t, seeds[k].moduleId, name);
    var j :| 0 <= j < |seeds| && seeds[j] == t;
    ParticipantsComeFirst(input, j, k);
  }

  lemma NeedsMetInOrder(app: App, r: Rules, input: seq<Seed>, k: nat)
    requires SeedsOk(app, r, multiset(Sorted(input))) && k < |Sorted(input)|
    ensures NeedsMet(app, r, Sorted(input), k)
  {
    var seeds := Sorted(input);
    var needs := Needs(app, r, seeds[k]);
    if needs != [] {
      assert seeds[k] in multiset(seeds);
      forall i | 0 <= i < |needs| ensures ProvidedBelow(app, r, seeds, k, seeds[k], needs[i]) {
        assert Provided(app, r, multiset(seeds), seeds[k], needs[i]);
        NeedMetInOrder(app, r, input, k, needs[i]);
      }
    }
  }

  lemma SeedsOkImplySteps(app: App, r: Rules, input: seq<Seed>)
    requires SeedsOk(app, r, multiset(input))
    ensures StepsOk(app, r, Sorted(input), |Sorted(input)|)
  {
    var seeds := Sorted(input);
    SortedKeepsAll(input);
    forall k: nat | k < |seeds| ensures StepOk(app, r, seeds, k) {
      assert seeds[k] in multiset(seeds);
      forall j | 0 <= j < k ensures !Clashing(app, r, seeds[j], seeds[k]) { PairDoesNotClash(app, r, seeds, j, k); }
      NeedsMetInOrder(app, r, input, k);
    }
  }

  /** Seeding succeeds exactly when the seeds, as a bag, are acceptable: the order in which they
      are given never matters, and expenses may come before their participants. */
  lemma SeedingSucceedsExactly(app: App, r: Rules, seeds: seq<Seed>)
    requires app.Workspace?
    ensures Seeded(app, r, seeds).Some? <==> |seeds| <= MAX_SEEDS && SeedsOk(app, r, multiset(seeds))
  {
    var sorted := Sorted(seeds);
    SortedKeepsAll(seeds);
    assert sorted[..|sorted|] == sorted;
    SeedAllExactly(app, r, sorted, |sorted|);
    if SeedsOk(app, r, multiset(seeds)) { SeedsOkImplySteps(app, r, seeds); }
    if StepsOk(app, r, sorted, |sorted|) { StepsImplySeedsOk(app, r, sorted); }
  }

  lemma OrderOfSeedsIsIrrelevant(app: App, r: Rules, seeds: seq<Seed>, others: seq<Seed>)
    requires app.Workspace? && multiset(seeds) == multiset(others)
    ensures Seeded(app, r, seeds).Some? <==> Seeded(app, r, others).Some?
  {
    assert |multiset(seeds)| == |seeds| && |multiset(others)| == |others|;
    SeedingSucceedsExactly(app, r, seeds);
    SeedingSucceedsExactly(app, r, others);
  }
}
