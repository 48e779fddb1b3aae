/**
 Choosing the memories that go into a prompt (`retrieve_memory_context` and `_expand_graph`
 in memory/service.py).  Scores and relevance floors are arbitrary functions here.
 */
module MemoryRetrieval {
  import opened Options

  type Id = nat

  /** An entity row; `isUser` when its name is one of the two names of the synthetic user node. */
  datatype Entity = Entity(id: Id, isUser: bool)

  /** A fact row with its subject and object entity. */
  datatype Candidate = Candidate(id: Id, subject: Entity, linked: Option<Entity>)

  datatype Context = Context(facts: seq<Candidate>, episodes: seq<Id>)

  const MAX_EPISODES := 3
  const EXPANDED_SEEDS := 3

  // ---------------------------------------------------------------- ranking

  function Place<T>(s: seq<T>, x: T, score: T -> real): seq<T> {
    if s == [] || score(s[0]) < score(x) then [x] + s else [s[0]] + Place(s[1..], x, score)
  }

  /** Sorted by falling score; equal scores keep their order. */
  function Ranked<T>(s: seq<T>, score: T -> real): seq<T> {
    if s == [] then [] else Place(Ranked(s[..|s| - 1], score), s[|s| - 1], score)
  }

  ghost predicate Falling<T>(s: seq<T>, score: T -> real) {
    forall i, j | 0 <= i < j < |s| :: score(s[i]) >= score(s[j])
  }

  ghost predicate SameElements<T>(s: seq<T>, t: seq<T>) {
    multiset(s) == multiset(t)
  }

  lemma FallingCons<T>(h: T, t: seq<T>, score: T -> real)
    requires Falling(t, score) && forall y | y in t :: score(h) >= score(y)
    ensures Falling([h] + t, score)
  {
    forall i, j | 0 <= i < j < |[h] + t| ensures score(([h] + t)[i]) >= score(([h] + t)[j]) {
      assert ([h] + t)[j] == t[j - 1];
      if i > 0 { assert ([h] + t)[i] == t[i - 1]; }
    }
  }

  lemma HeadIsBest<T>(s: seq<T>, score: T -> real, y: T)
    requires Falling(s, score) && y in s
    ensures score(s[0]) >= score(y)
  {
    var i :| 0 <= i < |s| && s[i] == y;
    assert i > 0 ==> score(s[0]) >= score(s[i]);
  }

  lemma {:induction false} PlaceElements<T>(s: seq<T>, x: T, score: T -> real)
    ensures multiset(Place(s, x, score)) == multiset(s) + multiset{x}
  {
    if s != [] {
      PlaceElements(s[1..], x, score);
      assert s == [s[0]] + s[1..];
    }
  }

  lemma {:induction false} PlaceRanks<T>(s: seq<T>, x: T, score: T -> real)
    requires Falling(s, score)
    ensures Falling(Place(s, x, score), score)
  {
    if s == [] || score(s[0]) < score(x) {
      forall y | y in s ensures score(x) >= score(y) { HeadIsBest(s, score, y); }
      FallingCons(x, s, score);
    } else {
      PlaceRanks(s[1..], x, score);
      PlaceElements(s[1..], x, score);
      var placed := Place(s[1..], x, score);
      forall y | y in placed ensures score(s[0]) >= score(y) {
        if y != x {
          assert y in multiset(placed) && y in multiset(s[1..]);
          HeadIsBest(s, score, y);
        }
      }
      FallingCons(s[0], placed, score);
    }
  }

  lemma {:induction false} RankedRanks<T>(s: seq<T>, score: T -> real)
    ensures Falling(Ranked(s, score), score) && SameElements(Ranked(s, score), s)
  {
    if s != [] {
      RankedRanks(s[..|s| - 1], score);
      PlaceRanks(Ranked(s[..|s| - 1], score), s[|s| - 1], score);
      PlaceElements(Ranked(s[..|s| - 1], score), s[|s| - 1], score);
      assert s == s[..|s| - 1] + [s[|s| - 1]];
    }
  }

  /** The elements with exactly this score, in their order. */
  function WithScore<T>(s: seq<T>, score: T -> real, v: real): seq<T> {
    if s == [] then [] else (if score(s[0]) == v then [s[0]] else []) + WithScore(s[1..], score, v)
  }

  lemma {:induction false} NoneWithScore<T>(s: seq<T>, score: T -> real, v: real)
    requires forall y | y in s :: score(y) < v
    ensures WithScore(s, score, v) == []
  {
    if s != [] { NoneWithScore(s[1..], score, v); }
  }

  lemma {:induction false} PlaceIsStable<T>(s: seq<T>, x: T, score: T -> real, v: real)
    requires Falling(s, score)
    ensures WithScore(Place(s, x, score), score, v) ==
      WithScore(s, score, v) + (if score(x) == v then [x] else [])
  {
    if s == [] || score(s[0]) < score(x) {
      assert ([x] + s)[1..] == s;
      if score(x) == v {
        forall y | y in s ensures score(y) < v { HeadIsBest(s, score, y); }
        NoneWithScore(s, score, v);
      }
    } else {
      PlaceIsStable(s[1..], x, score, v);
      assert Place(s, x, score)[1..] == Place(s[1..], x, score);
    }
  }

  lemma {:induction false} WithScoreMore<T>(s: seq<T>, x: T, score: T -> real, v: real)
    ensures WithScore(s + [x], score, v) == WithScore(s, score, v) + (if score(x) == v then [x] else [])
  {
    var longer := s + [x];
    if s == [] {
      assert longer == [x] && longer[1..] == [];
    } else {
      assert longer[0] == s[0] && longer[1..] == s[1..] + [x];
      WithScoreMore(s[1..], x, score, v);
    }
  }

  lemma PlacedIsStable<T>(front: seq<T>, last: T, score: T -> real, v: real)
    requires WithScore(Ranked(front, score), score, v) == WithScore(front, score, v)
    ensures WithScore(Place(Ranked(front, score), last, score), score, v) == WithScore(front + [last], score, v)
  {
    RankedRanks(front, score);
    PlaceIsStable(Ranked(front, score), last, score, v);
    WithScoreMore(front, last, score, v);
  }

  /** Ranking keeps the order of what scores alike. */
  lemma {:induction false} RankedIsStable<T>(s: seq<T>, score: T -> real, v: real)
    ensures WithScore(Ranked(s, score), score, v) == WithScore(s, score, v)
  {
    if s != [] {
      var front, last := s[..|s| - 1], s[|s| - 1];
      RankedIsStable(front, score, v);
      PlacedIsStable(front, last, score, v);
      assert s == front + [last];
    }
  }

  function Filter<T>(s: seq<T>, keep: T -> bool): seq<T> {
    if s == [] then [] else (if keep(s[0]) then [s[0]] else []) + Filter(s[1..], keep)
  }

  lemma {:induction false} FilterMember<T>(s: seq<T>, keep: T -> bool, x: T)
    ensures x in Filter(s, keep) <==> x in s && keep(x)
  {
    if s != [] {
      FilterMember(s[1..], keep, x);
      assert s == [s[0]] + s[1..];
    }
  }

  lemma FilterKeeps<T>(s: seq<T>, keep: T -> bool)
    ensures forall x :: x in Filter(s, keep) <==> x in s && keep(x)
  {
    forall x ensures x in Filter(s, keep) <==> x in s && keep(x) { FilterMember(s, keep, x); }
  }

  lemma {:induction false} FilterFalls<T>(s: seq<T>, keep: T -> bool, score: T -> real)
    requires Falling(s, score)
    ensures Falling(Filter(s, keep), score)
  {
    if s != [] {
      FilterFalls(s[1..], keep, score);
      if keep(s[0]) {
        FilterKeeps(s[1..], keep);
        var kept := Filter(s[1..], keep);
        forall y | y in kept ensures score(s[0]) >= score(y) {
          FilterMember(s[1..], keep, y);
          HeadIsBest(s, score, y);
        }
        FallingCons(s[0], kept, score);
      }
    }
  }

  predicate Distinct(s: seq<Candidate>) {
    forall i, j | 0 <= i < j < |s| :: s[i].id != s[j].id
  }

  lemma {:induction false} FilterDistinct(s: seq<Candidate>, keep: Candidate -> bool)
    requires Distinct(s)
    ensures Distinct(Filter(s, keep))
  {
    if s != [] {
      FilterDistinct(s[1..], keep);
      FilterKeeps(s[1..], keep);
      var rest := Filter(s[1..], keep);
      if keep(s[0]) {
        forall k | 0 <= k < |rest| ensures rest[k].id != s[0].id {
          assert rest[k] in rest && rest[k] in s[1..];
          var i :| 0 <= i < |s[1..]| && s[1..][i] == rest[k];
          assert s[i + 1] == rest[k];
        }
      }
    }
  }

  function Ids(s: seq<Candidate>): set<Id> {
    set c | c in s :: c.id
  }

  lemma DistinctAppend(s: seq<Candidate>, c: Candidate)
    requires Distinct(s) && c.id !in Ids(s)
    ensures Distinct(s + [c]) && Ids(s + [c]) == Ids(s) + {c.id}
  {
    assert forall x | x in s :: x.id in Ids(s);
  }

  /** Rows of several queries merged by id; the first occurrence fixes the position. */
  function Merged(rows: seq<Candidate>): seq<Candidate> {
    if rows == [] then []
    else
      var front := Merged(rows[..|rows| - 1]);
      if rows[|rows| - 1].id in Ids(front) then front else front + [rows[|rows| - 1]]
  }

  lemma {:induction false} MergedDistinct(rows: seq<Candidate>)
    ensures Distinct(Merged(rows)) && Ids(Merged(rows)) == Ids(rows)
    ensures forall c | c in Merged(rows) :: c in rows
  {
    if rows != [] {
      var front, last := rows[..|rows| - 1], rows[|rows| - 1];
      MergedDistinct(front);
      assert rows == front + [last];
      assert Ids(rows) == Ids(front) + {last.id};
      if last.id !in Ids(Merged(front)) { DistinctAppend(Merged(front), last); }
    }
  }

  lemma RankedDistinct(s: seq<Candidate>, score: Candidate -> real)
    requires Distinct(s)
    ensures Distinct(Ranked(s, score))
  {
    var r := Ranked(s, score);
    RankedRanks(s, score);
    if i, j :| 0 <= i < j < |r| && r[i].id == r[j].id {
      assert r[i] in multiset(s) && r[j] in multiset(s);
      var a :| 0 <= a < |s| && s[a] == r[i];
      var b :| 0 <= b < |s| && s[b] == r[j];
      assert a == b && r[i] == r[j];
      TwiceInSeq(r, i, j);
      OnceInDistinct(s, r[i]);
      assert false;
    }
  }

  lemma TwiceInSeq(s: seq<Candidate>, i: nat, j: nat)
    requires i < j < |s| && s[i] == s[j]
    ensures multiset(s)[s[i]] >= 2
  {
    assert s == s[..j] + s[j..] && s[i] in s[..j] && s[j] in s[j..];
    assert multiset(s) == multiset(s[..j]) + multiset(s[j..]);
  }

  lemma {:induction false} OnceInDistinct(s: seq<Candidate>, c: Candidate)
    requires Distinct(s)
    ensures multiset(s)[c] <= 1
  {
    if s != [] {
      var front, last := s[..|s| - 1], s[|s| - 1];
      assert s == front + [last];
      OnceInDistinct(front, c);
      if c == last { assert c !in front; }
    }
  }

  // ---------------------------------------------------------------- expansion

  /** The entities one expands through: a subject only when it is not the user node, an object
      always, even when it is. */
  function OpenEntities(c: Candidate): set<Entity> {
    (if c.subject.isUser then {} else {c.subject}) + (if c.linked.Some? then {c.linked.value} else {})
  }

  predicate Mentions(c: Candidate, e: Entity) { c.subject == e || c.linked == Some(e) }

  predicate Touches(c: Candidate, entities: set<Entity>) {
    c.subject in entities || (c.linked.Some? && c.linked.value in entities)
  }

  function FirstFew(s: seq<Candidate>, n: nat): seq<Candidate> {
    if |s| <= n then s else s[..n]
  }

  function SeedEntities(seeds: seq<Candidate>): set<Entity> {
    set c, e | c in FirstFew(seeds, EXPANDED_SEEDS) && e in OpenEntities(c) :: e
  }

  /** The most important facts of the table around the seeds. */
  function Neighbours(table: seq<Candidate>, seeds: seq<Candidate>, limit: nat): seq<Candidate> {
    FirstFew(Filter(table, c => Touches(c, SeedEntities(seeds))), limit)
  }

  /** The selection with the unseen rows added, in order, up to the limit. */
  function Appended(selected: seq<Candidate>, rows: seq<Candidate>, limit: nat): seq<Candidate> {
    if rows == [] then selected
    else
      var before, last := Appended(selected, rows[..|rows| - 1], limit), rows[|rows| - 1];
      if |before| >= limit || last.id in Ids(before) then before else before + [last]
  }

  function Expanded(table: seq<Candidate>, seeds: seq<Candidate>, limit: nat): seq<Candidate> {
    Appended(seeds, Neighbours(table, seeds, limit), limit)
  }

  lemma {:induction false} AppendedAdds(selected: seq<Candidate>, rows: seq<Candidate>, limit: nat)
    requires |selected| <= limit && Distinct(selected)
    ensures var all := Appended(selected, rows, limit);
      && selected <= all && |all| <= limit && Distinct(all)
      && (forall i | |selected| <= i < |all| :: all[i] in rows)
      && (|all| < limit ==> Ids(rows) <= Ids(all))
  {
    if rows != [] {
      var init, last := rows[..|rows| - 1], rows[|rows| - 1];
      AppendedAdds(selected, init, limit);
      assert rows == init + [last];
      assert Ids(rows) == Ids(init) + {last.id};
      var before := Appended(selected, init, limit);
      if last.id !in Ids(before) { DistinctAppend(before, last); }
    }
  }

  /** Once the limit is reached, the remaining rows add nothing. */
  lemma {:induction false} FullStaysFull(selected: seq<Candidate>, rows: seq<Candidate>, n: nat, limit: nat)
    requires n <= |rows| && |Appended(selected, rows[..n], limit)| >= limit
    ensures Appended(selected, rows, limit) == Appended(selected, rows[..n], limit)
    decreases |rows| - n
  {
    if n == |rows| {
      assert rows[..n] == rows;
    } else {
      assert rows[..n + 1][..n] == rows[..n];
      FullStaysFull(selected, rows, n + 1, limit);
    }
  }

  /** Adds the rows not selected yet, in order, until the limit is reached. */
  method AppendUnseen(selected: seq<Candidate>, rows: seq<Candidate>, limit: nat) returns (filled: seq<Candidate>)
    requires |selected| < limit
    ensures filled == Appended(selected, rows, limit)
  {
    filled := selected;
    for i := 0 to |rows|
      invariant filled == Appended(selected, rows[..i], limit) && |filled| < limit
    {
      assert rows[..i + 1][..i] == rows[..i];
      if rows[i].id in Ids(filled) { continue; }
      filled := filled + [rows[i]];
      if |filled| >= limit {
        FullStaysFull(selected, rows, i + 1, limit);
        return;
      }
    }
    assert rows[..|rows|] == rows;
  }

  lemma NeighboursTouch(table: seq<Candidate>, seeds: seq<Candidate>, limit: nat)
    ensures forall c | c in Neighbours(table, seeds, limit) :: c in table && Touches(c, SeedEntities(seeds))
    ensures SeedEntities(seeds) == {} ==> Neighbours(table, seeds, limit) == []
  {
    FilterKeeps(table, c => Touches(c, SeedEntities(seeds)));
    var all := Filter(table, c => Touches(c, SeedEntities(seeds)));
    if all != [] { assert all[0] in all; }
    assert forall c | c in FirstFew(all, limit) :: c in all;
  }

  /** `_expand_graph`: the most important facts around the seeds, until the limit is reached.
      `table` holds the user's relevant facts in the order of the query. */
  method ExpandGraph(table: seq<Candidate>, seeds: seq<Candidate>, limit: nat) returns (expanded: seq<Candidate>)
    requires Distinct(seeds) && |seeds| <= limit
    ensures expanded == Expanded(table, seeds, limit)
    ensures seeds <= expanded && |expanded| <= limit && Distinct(expanded)
    ensures forall i | |seeds| <= i < |expanded| :: expanded[i] in table && Touches(expanded[i], SeedEntities(seeds))
    ensures |expanded| < limit ==> Ids(Neighbours(table, seeds, limit)) <= Ids(expanded)
  {
    NeighboursTouch(table, seeds, limit);
    AppendedAdds(seeds, Neighbours(table, seeds, limit), limit);
    if seeds == [] {
      assert SeedEntities(seeds) == {};
      return seeds;
    }
    if |seeds| >= limit {
      assert Neighbours(table, seeds, limit)[..0] == [];
      FullStaysFull(seeds, Neighbours(table, seeds, limit), 0, limit);
      return seeds;
    }
    if SeedEntities(seeds) == {} { return seeds; }
    expanded := AppendUnseen(seeds, Neighbours(table, seeds, limit), limit);
  }

  // ---------------------------------------------------------------- expanding through the user

  /** The fact shares an entity other than the user node with one of the first three seeds. */
  ghost predicate SharesOther(c: Candidate, seeds: seq<Candidate>) {
    exists e :: Mentions(c, e) && !e.isUser && e in SeedEntities(seeds)
  }

  /** Every fact that the expansion adds does. */
  ghost predicate StaysOffTheUser(table: seq<Candidate>, seeds: seq<Candidate>, limit: nat) {
    var all := Expanded(table, seeds, limit);
    forall i | |seeds| <= i < |all| :: SharesOther(all[i], seeds)
  }

  /** One of the first three seeds has the user node as its object. */
  predicate UserIsObject(seeds: seq<Candidate>) {
    exists k :: 0 <= k < |FirstFew(seeds, EXPANDED_SEEDS)| && seeds[k].linked.Some? && seeds[k].linked.value.isUser
  }

  lemma OnlyOthersAreOpen(seeds: seq<Candidate>, c: Candidate)
    requires !UserIsObject(seeds) && Touches(c, SeedEntities(seeds))
    ensures SharesOther(c, seeds)
  {
    var e := if c.subject in SeedEntities(seeds) then c.subject else c.linked.value;
    var seed :| seed in FirstFew(seeds, EXPANDED_SEEDS) && e in OpenEntities(seed);
    var k :| 0 <= k < |FirstFew(seeds, EXPANDED_SEEDS)| && FirstFew(seeds, EXPANDED_SEEDS)[k] == seed;
    assert seeds[k] == seed;
    assert Mentions(c, e) && !e.isUser;
  }

  lemma {:induction false} FreshId(s: seq<Candidate>) returns (id: Id)
    ensures forall c | c in s :: c.id < id
  {
    if s == [] {
      id := 0;
    } else {
      var init, last := s[..|s| - 1], s[|s| - 1];
      assert s == init + [last];
      var below := FreshId(init);
      id := if last.id < below then below else last.id + 1;
    }
  }

  /** The seed that opens the user node pulls in a fact that has nothing else in common. */
  lemma UserNodeIsExpanded(seeds: seq<Candidate>, k: nat, limit: nat, c: Candidate)
    requires |seeds| < limit && k < |FirstFew(seeds, EXPANDED_SEEDS)|
    requires seeds[k].linked.Some? && seeds[k].linked.value.isUser
    requires c.subject == seeds[k].linked.value && c.linked.None? && c.id !in Ids(seeds)
    ensures Expanded([c], seeds, limit) == seeds + [c] && !SharesOther(c, seeds)
  {
    assert FirstFew(seeds, EXPANDED_SEEDS)[k] == seeds[k];
    assert c.subject in OpenEntities(seeds[k]);
    assert Touches(c, SeedEntities(seeds));
    assert [c][1..] == [] && Filter([c], x => Touches(x, SeedEntities(seeds))) == [c];
    assert Neighbours([c], seeds, limit) == [c];
    assert [c][..0] == [] && Appended(seeds, [], limit) == seeds;
  }

  /** Exactly when no table whatever makes the expansion add a fact that shares only the user
      node: none of the first three seeds has the user node as its object. */
  lemma UserNodeIsAvoidedExactly(seeds: seq<Candidate>, limit: nat)
    requires Distinct(seeds) && |seeds| < limit
    ensures (forall table :: StaysOffTheUser(table, seeds, limit)) <==> !UserIsObject(seeds)
  {
    if UserIsObject(seeds) {
      var k :| 0 <= k < |FirstFew(seeds, EXPANDED_SEEDS)| && seeds[k].linked.Some? && seeds[k].linked.value.isUser;
      var id := FreshId(seeds);
      var c := Candidate(id, seeds[k].linked.value, None);
      UserNodeIsExpanded(seeds, k, limit, c);
      assert (seeds + [c])[|seeds|] == c;
      assert !StaysOffTheUser([c], seeds, limit);
    } else {
      forall table ensures StaysOffTheUser(table, seeds, limit) {
        var all := Expanded(table, seeds, limit);
        NeighboursTouch(table, seeds, limit);
        AppendedAdds(seeds, Neighbours(table, seeds, limit), limit);
        forall i | |seeds| <= i < |all| ensures SharesOther(all[i], seeds) { OnlyOthersAreOpen(seeds, all[i]); }
      }
    }
  }

  /** An input: a friend of the user is the seed, and an unrelated fact about the user comes in. */
  lemma FriendOfTheUser()
    ensures var user, maya := Entity(0, true), Entity(1, false);
      var seed, unrelated := Candidate(10, maya, Some(user)), Candidate(11, user, None);
      Expanded([unrelated], [seed], 2) == [seed, unrelated] && !SharesOther(unrelated, [seed])
  {
    var user, maya := Entity(0, true), Entity(1, false);
    var seed, unrelated := Candidate(10, maya, Some(user)), Candidate(11, user, None);
    UserNodeIsExpanded([seed], 0, 2, unrelated);
  }

  // ---------------------------------------------------------------- the whole retrieval

  function SeedLimit(limit: nat): nat {
    var half := if limit / 2 < 1 then 1 else limit / 2;
    if limit < half then limit else half
  }

  ghost predicate IsBest(seeds: seq<Candidate>, rows: seq<Candidate>, score: Candidate -> real,
        relevant: Candidate -> bool) {
    && (forall c | c in seeds :: c in rows && relevant(c))
    && (forall c, d | c in seeds && d in Merged(rows) && relevant(d) && d !in seeds :: score(c) >= score(d))
    && Falling(seeds, score)
  }

  /** The relevant candidates, best first. */
  method Direct(rows: seq<Candidate>, score: Candidate -> real, relevant: Candidate -> bool)
    returns (direct: seq<Candidate>)
    ensures Distinct(direct) && Falling(direct, score)
    ensures forall c :: c in direct <==> c in Merged(rows) && relevant(c)
  {
    MergedDistinct(rows);
    RankedRanks(Merged(rows), score);
    RankedDistinct(Merged(rows), score);
    var ranked := Ranked(Merged(rows), score);
    direct := Filter(ranked, relevant);
    FilterKeeps(ranked, relevant);
    FilterFalls(ranked, relevant, score);
    FilterDistinct(ranked, relevant);
    forall c ensures c in ranked <==> c in Merged(rows) {
      assert c in ranked <==> c in multiset(ranked);
      assert c in Merged(rows) <==> c in multiset(Merged(rows));
    }
  }

  lemma FirstAreBest(direct: seq<Candidate>, n: nat, rows: seq<Candidate>, score: Candidate -> real,
        relevant: Candidate -> bool)
    requires Falling(direct, score)
    requires forall c :: c in direct <==> c in Merged(rows) && relevant(c)
    ensures IsBest(FirstFew(direct, n), rows, score, relevant)
  {
    MergedDistinct(rows);
    var seeds := FirstFew(direct, n);
    forall c, d | c in seeds && d in Merged(rows) && relevant(d) && d !in seeds ensures score(c) >= score(d) {
      var i :| 0 <= i < |seeds| && seeds[i] == c;
      var j :| 0 <= j < |direct| && direct[j] == d;
      assert forall k | 0 <= k < |seeds| :: seeds[k] == direct[k];
      assert j >= |seeds|;
    }
  }

  ghost predicate Explained(c: Candidate, rows: seq<Candidate>, table: seq<Candidate>, relevant: Candidate -> bool,
        seeds: seq<Candidate>) {
    || (c in rows && relevant(c))
    || (c in table && Touches(c, SeedEntities(seeds)) && (!UserIsObject(seeds) ==> SharesOther(c, seeds)))
  }

  /** The facts of the context: at most `limit`, the seeds first. */
  method SelectFacts(rows: seq<Candidate>, table: seq<Candidate>, score: Candidate -> real,
        relevant: Candidate -> bool, limit: nat)
    returns (facts: seq<Candidate>, ghost seeds: seq<Candidate>)
    requires limit > 0
    ensures |facts| <= limit && Distinct(facts) && seeds <= facts
    ensures IsBest(seeds, rows, score, relevant) && |seeds| <= SeedLimit(limit)
    ensures |seeds| <= 1 || 2 * |seeds| <= limit
    ensures seeds == [] || 2 * (|seeds| + 1) <= limit ==> forall c | c in Merged(rows) && relevant(c) :: c in seeds
    ensures |seeds| < SeedLimit(limit) ==> forall c | c in Merged(rows) && relevant(c) :: c in seeds
    ensures forall c | c in facts :: Explained(c, rows, table, relevant, seeds)
    ensures |facts| < limit ==> forall c | c in Merged(rows) && relevant(c) :: c.id in Ids(facts)
    ensures |facts| < limit ==> Ids(Neighbours(table, seeds, limit)) <= Ids(facts)
  {
    var direct := Direct(rows, score, relevant);
    var first := FirstFew(direct, SeedLimit(limit));
    seeds := first;
    FirstAreBest(direct, SeedLimit(limit), rows, score, relevant);
    facts := ExpandGraph(table, first, limit);
    ExpansionIsExplained(rows, table, relevant, direct, first, facts);
    if |facts| < limit {
      FillingIsExplained(rows, table, relevant, direct, first, facts, limit);
      facts := AppendUnseen(facts, direct[|first|..], limit);
    }
  }

  lemma ExpansionIsExplained(rows: seq<Candidate>, table: seq<Candidate>, relevant: Candidate -> bool,
        direct: seq<Candidate>, seeds: seq<Candidate>, facts: seq<Candidate>)
    requires forall c :: c in direct <==> c in Merged(rows) && relevant(c)
    requires seeds <= direct && seeds <= facts
    requires forall i | |seeds| <= i < |facts| :: facts[i] in table && Touches(facts[i], SeedEntities(seeds))
    ensures forall c | c in facts :: Explained(c, rows, table, relevant, seeds)
  {
    MergedDistinct(rows);
    forall c | c in facts ensures Explained(c, rows, table, relevant, seeds) {
      var i :| 0 <= i < |facts| && facts[i] == c;
      if i < |seeds| {
        assert direct[i] == seeds[i] == facts[i];
      } else if !UserIsObject(seeds) {
        OnlyOthersAreOpen(seeds, c);
      }
    }
  }

  /** Filling up with the remaining direct candidates keeps what is known and misses none. */
  lemma FillingIsExplained(rows: seq<Candidate>, table: seq<Candidate>, relevant: Candidate -> bool,
        direct: seq<Candidate>, seeds: seq<Candidate>, facts: seq<Candidate>, limit: nat)
    requires forall c :: c in direct <==> c in Merged(rows) && relevant(c)
    requires seeds <= direct && seeds <= facts && |facts| <= limit && Distinct(facts)
    requires forall c | c in facts :: Explained(c, rows, table, relevant, seeds)
    ensures var filled := Appended(facts, direct[|seeds|..], limit);
      && facts <= filled && |filled| <= limit && Distinct(filled)
      && (forall c | c in filled :: Explained(c, rows, table, relevant, seeds))
      && (|filled| < limit ==> forall c | c in direct :: c.id in Ids(filled))
  {
    MergedDistinct(rows);
    var rest := direct[|seeds|..];
    AppendedAdds(facts, rest, limit);
    var filled := Appended(facts, rest, limit);
    forall c | c in filled ensures Explained(c, rows, table, relevant, seeds) {
      var i :| 0 <= i < |filled| && filled[i] == c;
      if i < |facts| { assert facts[i] == c; } else { assert c in rest && c in direct; }
    }
    forall c | c in direct && |filled| < limit ensures c.id in Ids(filled) {
      var i :| 0 <= i < |direct| && direct[i] == c;
      if i < |seeds| {
        assert seeds[i] == c && facts[i] == c && filled[i] == c;
      } else {
        assert rest[i - |seeds|] == c;
      }
    }
  }

  /** `retrieve_memory_context`: `rows` are the candidate rows of the fact queries, `table` the
      relevant facts that the expansion queries, `episodeRows` the candidate episodes. */
  method Retrieve(rows: seq<Candidate>, table: seq<Candidate>, score: Candidate -> real, relevant: Candidate -> bool,
                  episodeRows: seq<Id>, episodeScore: Id -> real, episodeRelevant: Id -> bool, limit: int)
    returns (context: Context, ghost seeds: seq<Candidate>)
    ensures limit <= 0 ==> context == Context([], [])
    ensures limit > 0 ==> |context.facts| + |context.episodes| <= limit && |context.episodes| <= MAX_EPISODES
    ensures Distinct(context.facts) && seeds <= context.facts
    ensures limit > 0 ==> IsBest(seeds, rows, score, relevant) && |seeds| <= SeedLimit(limit)
    ensures |seeds| <= 1 || 2 * |seeds| <= limit
    ensures limit > 0 && (seeds == [] || 2 * (|seeds| + 1) <= limit) ==>
      forall c | c in Merged(rows) && relevant(c) :: c in seeds
    ensures limit > 0 && |seeds| < SeedLimit(limit) ==> forall c | c in Merged(rows) && relevant(c) :: c in seeds
    ensures forall c | c in context.facts :: Explained(c, rows, table, relevant, seeds)
    ensures limit > 0 && |context.facts| < limit ==>
      (forall c | c in Merged(rows) && relevant(c) :: c.id in Ids(context.facts))
      && Ids(Neighbours(table, seeds, limit)) <= Ids(context.facts)
    ensures Falling(context.episodes, episodeScore)
    ensures forall e | e in context.episodes :: e in episodeRows && episodeRelevant(e)
    ensures limit > 0 && |context.episodes| < MAX_EPISODES && |context.facts| + |context.episodes| < limit ==>
      forall e | e in episodeRows && episodeRelevant(e) :: e in context.episodes
  {
    if limit <= 0 { return Context([], []), []; }
    var facts, best := SelectFacts(rows, table, score, relevant, limit);
    seeds := best;
    var episodeLimit := if limit - |facts| < MAX_EPISODES then limit - |facts| else MAX_EPISODES;
    var episodes: seq<Id> := [];
    if episodeLimit > 0 { episodes := BestEpisodes(episodeRows, episodeScore, episodeRelevant, episodeLimit); }
    context := Context(facts, episodes);
  }

  method BestEpisodes(rows: seq<Id>, score: Id -> real, relevant: Id -> bool, limit: nat) returns (best: seq<Id>)
    ensures |best| <= limit && Falling(best, score)
    ensures forall e | e in best :: e in rows && relevant(e)
    ensures forall e, f | e in best && f in rows && relevant(f) && f !in best :: score(e) >= score(f)
    ensures |best| < limit ==> forall e | e in rows && relevant(e) :: e in best
  {
    RankedRanks(rows, score);
    var ranked := Ranked(rows, score);
    FilterKeeps(ranked, relevant);
    FilterFalls(ranked, relevant, score);
    var all := Filter(ranked, relevant);
    best := if |all| <= limit then all else all[..limit];
    forall e ensures e in all <==> e in rows && relevant(e) {
      assert e in ranked <==> e in multiset(ranked);
      assert e in rows <==> e in multiset(rows);
    }
    PrefixIsBest(all, best, score);
  }

  lemma PrefixIsBest(all: seq<Id>, best: seq<Id>, score: Id -> real)
    requires Falling(all, score) && best <= all
    ensures forall e, f | e in best && f in all && f !in best :: score(e) >= score(f)
  {
    forall e, f | e in best && f in all && f !in best ensures score(e) >= score(f) {
      var i :| 0 <= i < |best| && best[i] == e;
      var j :| 0 <= j < |all| && all[j] == f;
      assert all[i] == e && j >= |best|;
    }
  }
}
