/**
 The referral waitlist (services/waitlist.py): joining with a bounded number of referral-code
 attempts, and the ranking by referrals, then time of joining, then id.
 */
module Waitlist {
  import opened Options

  datatype Entry = Entry(id: nat, email: string, code: string, referredBy: Option<nat>, createdAt: int)

  const ATTEMPTS := 5

  // ---------------------------------------------------------------- the table

  /** The entry's referrer was there before it. */
  ghost predicate RefOk(es: seq<Entry>, i: nat) {
    && i < |es|
    && (es[i].referredBy.Some? ==> exists j :: 0 <= j < i && es[j].id == es[i].referredBy.value)
  }

  ghost predicate Valid(es: seq<Entry>) {
    && (forall i, j | 0 <= i < j < |es| ::
         es[i].id != es[j].id && es[i].email != es[j].email && es[i].code != es[j].code)
    && (forall i: nat {:trigger RefOk(es, i)} | i < |es| :: RefOk(es, i))
  }

  predicate HasId(es: seq<Entry>, id: nat) { exists i :: 0 <= i < |es| && es[i].id == id }

  predicate HasEmail(es: seq<Entry>, email: string) { exists i :: 0 <= i < |es| && es[i].email == email }

  predicate HasCode(es: seq<Entry>, code: string) { exists i :: 0 <= i < |es| && es[i].code == code }

  /** The unique and foreign-key constraints accept the row; ids are fresh. */
  predicate Insertable(es: seq<Entry>, e: Entry) {
    && !HasId(es, e.id) && !HasEmail(es, e.email) && !HasCode(es, e.code)
    && (e.referredBy.Some? ==> HasId(es, e.referredBy.value))
  }

  lemma InsertKeepsValid(es: seq<Entry>, e: Entry)
    requires Valid(es) && Insertable(es, e)
    ensures Valid(es + [e])
  {
    var more := es + [e];
    forall i: nat | i < |more| ensures RefOk(more, i) {
      if i < |es| {
        assert RefOk(es, i);
        if es[i].referredBy.Some? {
          var j :| 0 <= j < i && es[j].id == es[i].referredBy.value;
          assert more[j].id == more[i].referredBy.value;
        }
      } else if e.referredBy.Some? {
        var j :| 0 <= j < |es| && es[j].id == e.referredBy.value;
        assert more[j].id == more[i].referredBy.value;
      }
    }
  }

  // ---------------------------------------------------------------- referral links

  /** Positions in the table, each entry referred by the next. */
  ghost predicate Chain(es: seq<Entry>, chain: seq<nat>) {
    && (forall k | 0 <= k < |chain| :: chain[k] < |es|)
    && (forall k: nat {:trigger Refers(es, chain, k)} | k + 1 < |chain| :: Refers(es, chain, k))
  }

  predicate Refers(es: seq<Entry>, chain: seq<nat>, k: nat) {
    k + 1 < |chain| && chain[k] < |es| && chain[k + 1] < |es| && es[chain[k]].referredBy == Some(es[chain[k + 1]].id)
  }

  /** Referral links are acyclic: a chain of referrals only ever leads to earlier entries. */
  lemma {:induction false} ChainsGoBack(es: seq<Entry>, chain: seq<nat>)
    requires Valid(es) && Chain(es, chain) && |chain| > 1
    ensures chain[|chain| - 1] < chain[0]
  {
    var init := chain[..|chain| - 1];
    ReferrerIsEarlier(es, chain, |chain| - 2);
    if |init| > 1 {
      forall k: nat | k + 1 < |init| ensures Refers(es, init, k) { assert Refers(es, chain, k); }
      ChainsGoBack(es, init);
    }
  }

  lemma ReferrerIsEarlier(es: seq<Entry>, chain: seq<nat>, k: nat)
    requires Valid(es) && Chain(es, chain) && k + 1 < |chain|
    ensures chain[k + 1] < chain[k]
  {
    assert Refers(es, chain, k) && RefOk(es, chain[k]);
    var j :| 0 <= j < chain[k] && es[j].id == es[chain[k]].referredBy.value;
    assert es[j].id == es[chain[k + 1]].id;
  }

  function Referrals(es: seq<Entry>, id: nat): nat {
    if es == [] then 0
    else Referrals(es[..|es| - 1], id) + (if es[|es| - 1].referredBy == Some(id) then 1 else 0)
  }

  function Referred(es: seq<Entry>): nat {
    if es == [] then 0 else Referred(es[..|es| - 1]) + (if es[|es| - 1].referredBy.Some? then 1 else 0)
  }

  /** The referral counts of the first `n` entries, all referrals of `es` counted. */
  function Total(es: seq<Entry>, counted: seq<Entry>): nat {
    if es == [] then 0 else Total(es[..|es| - 1], counted) + Referrals(counted, es[|es| - 1].id)
  }

  lemma {:induction false} TotalGrows(es: seq<Entry>, counted: seq<Entry>, e: Entry)
    requires forall i, j | 0 <= i < j < |es| :: es[i].id != es[j].id
    ensures Total(es, counted + [e]) == Total(es, counted) + (if e.referredBy.Some? &&
      HasId(es, e.referredBy.value) then 1 else 0)
  {
    if es != [] {
      var init, last := es[..|es| - 1], es[|es| - 1];
      TotalGrows(init, counted, e);
      assert (counted + [e])[..|counted + [e]| - 1] == counted;
      if e.referredBy.Some? {
        var id := e.referredBy.value;
        if i :| 0 <= i < |init| && init[i].id == id { assert es[i].id == id; }
        if i :| 0 <= i < |es| && es[i].id == id { assert i < |init| ==> init[i].id == id; }
      }
    }
  }

  /** Nobody is credited twice or for nothing: the referral counts of all entries add up to the
      number of referred entries. */
  lemma {:induction false} CountsAddUp(es: seq<Entry>)
    requires Valid(es)
    ensures Total(es, es) == Referred(es)
  {
    if es != [] {
      var init, e := es[..|es| - 1], es[|es| - 1];
      assert es == init + [e];
      ValidPrefix(init, e);
      CountsAddUp(init);
      TotalGrows(init, init, e);
      assert RefOk(es, |init|);
      if e.referredBy.Some? {
        var j :| 0 <= j < |init| && es[j].id == e.referredBy.value;
        assert init[j].id == e.referredBy.value;
      }
      NewcomerHasNone(init, e);
    }
  }

  lemma ValidPrefix(es: seq<Entry>, e: Entry)
    requires Valid(es + [e])
    ensures Valid(es)
  {
    var more := es + [e];
    assert forall i | 0 <= i < |es| :: more[i] == es[i];
    forall i: nat | i < |es| ensures RefOk(es, i) {
      assert RefOk(more, i);
      if more[i].referredBy.Some? {
        var j :| 0 <= j < i && more[j].id == more[i].referredBy.value;
        assert es[j].id == es[i].referredBy.value;
      }
    }
  }

  lemma {:induction false} NoReferralsYet(es: seq<Entry>, id: nat)
    requires forall i | 0 <= i < |es| :: es[i].referredBy != Some(id)
    ensures Referrals(es, id) == 0
  {
    if es != [] { NoReferralsYet(es[..|es| - 1], id); }
  }

  /** The newest entry has no referrals; everyone else's count grows only by its referral. */
  lemma NewcomerHasNone(es: seq<Entry>, e: Entry)
    requires Valid(es + [e])
    ensures Referrals(es + [e], e.id) == 0
    ensures forall id: nat :: Referrals(es + [e], id) == Referrals(es, id) + (if e.referredBy == Some(id) then 1 else 0)
  {
    var more := es + [e];
    assert more[..|more| - 1] == es;
    forall i | 0 <= i < |more| ensures more[i].referredBy != Some(e.id) {
      assert RefOk(more, i);
      assert more[|es|].id == e.id;
    }
    NoReferralsYet(more, e.id);
  }

  // ---------------------------------------------------------------- the ranking

  datatype Score = Score(referrals: nat, createdAt: int, id: nat)

  predicate Precedes(a: Score, b: Score) {
    || a.referrals > b.referrals
    || (a.referrals == b.referrals && (a.createdAt < b.createdAt || (a.createdAt == b.createdAt && a.id < b.id)))
  }

  function ScoreOf(es: seq<Entry>, e: Entry): Score { Score(Referrals(es, e.id), e.createdAt, e.id) }

  function Placed(ranking: seq<Score>, s: Score): seq<Score> {
    if ranking == [] then [s]
    else if Precedes(s, ranking[|ranking| - 1]) then Placed(ranking[..|ranking| - 1], s) + [ranking[|ranking| - 1]]
    else ranking + [s]
  }

  /** The scores of some entries in ranking order, all referrals of `all` counted. */
  function Ranking(all: seq<Entry>, es: seq<Entry>): seq<Score> {
    if es == [] then [] else Placed(Ranking(all, es[..|es| - 1]), ScoreOf(all, es[|es| - 1]))
  }

  ghost predicate Ranked(ranking: seq<Score>) {
    forall i, j | 0 <= i < j < |ranking| :: Precedes(ranking[i], ranking[j])
  }

  lemma {:induction false} PlacedKeeps(ranking: seq<Score>, s: Score)
    ensures multiset(Placed(ranking, s)) == multiset(ranking) + multiset{s}
  {
    if ranking != [] {
      var init, last := ranking[..|ranking| - 1], ranking[|ranking| - 1];
      assert ranking == init + [last];
      if Precedes(s, last) { PlacedKeeps(init, s); }
    }
  }

  lemma {:induction false} PlacedIsRanked(ranking: seq<Score>, s: Score)
    requires Ranked(ranking) && forall i | 0 <= i < |ranking| :: ranking[i].id != s.id
    ensures Ranked(Placed(ranking, s))
  {
    if ranking != [] && Precedes(s, ranking[|ranking| - 1]) {
      var init, last := ranking[..|ranking| - 1], ranking[|ranking| - 1];
      PlacedIsRanked(init, s);
      PlacedKeeps(init, s);
      var placed := Placed(init, s);
      forall i | 0 <= i < |placed| ensures Precedes(placed[i], last) {
        assert placed[i] in multiset(placed);
        assert placed[i] in init || placed[i] == s;
      }
    }
  }

  function Scores(all: seq<Entry>, es: seq<Entry>): multiset<Score> {
    if es == [] then multiset{} else Scores(all, es[..|es| - 1]) + multiset{ScoreOf(all, es[|es| - 1])}
  }

  ghost predicate IsScore(all: seq<Entry>, es: seq<Entry>, s: Score) {
    exists i :: 0 <= i < |es| && s == ScoreOf(all, es[i])
  }

  lemma {:induction false} ScoreIsOfAnEntry(all: seq<Entry>, es: seq<Entry>, s: Score)
    ensures s in Scores(all, es) <==> IsScore(all, es, s)
  {
    if es != [] {
      var init := es[..|es| - 1];
      ScoreIsOfAnEntry(all, init, s);
      if i :| 0 <= i < |es| && s == ScoreOf(all, es[i]) { assert i < |init| ==> init[i] == es[i]; }
      if i :| 0 <= i < |init| && s == ScoreOf(all, init[i]) { assert es[i] == init[i]; }
      if s == ScoreOf(all, es[|es| - 1]) { assert IsScore(all, es, s); }
    }
  }

  lemma {:induction false} ScoresCount(all: seq<Entry>, es: seq<Entry>)
    ensures |Scores(all, es)| == |es|
  {
    if es != [] { ScoresCount(all, es[..|es| - 1]); }
  }

  /** The ranking holds every entry's score once, in strictly descending rank. */
  lemma {:induction false} RankingIsRanked(all: seq<Entry>, es: seq<Entry>)
    requires forall i, j | 0 <= i < j < |es| :: es[i].id != es[j].id
    ensures Ranked(Ranking(all, es)) && multiset(Ranking(all, es)) == Scores(all, es)
  {
    if es != [] {
      var init, last := es[..|es| - 1], es[|es| - 1];
      RankingIsRanked(all, init);
      var ranking := Ranking(all, init);
      forall i | 0 <= i < |ranking| ensures ranking[i].id != last.id {
        assert ranking[i] in multiset(ranking);
        ScoreIsOfAnEntry(all, init, ranking[i]);
        var k :| 0 <= k < |init| && ranking[i] == ScoreOf(all, init[k]);
        assert es[k].id != es[|init|].id;
      }
      PlacedIsRanked(ranking, ScoreOf(all, last));
      PlacedKeeps(ranking, ScoreOf(all, last));
    }
  }

  /** The row number of an entry. */
  function Position(es: seq<Entry>, e: Entry): nat { RowNumber(Ranking(es, es), ScoreOf(es, e)) }

  function RowNumber(ranking: seq<Score>, s: Score): nat {
    if ranking == [] then 0
    else if ranking[|ranking| - 1] == s then |ranking|
    else RowNumber(ranking[..|ranking| - 1], s)
  }

  lemma {:induction false} RowNumberIsIndex(ranking: seq<Score>, k: nat)
    requires k < |ranking| && Ranked(ranking)
    ensures RowNumber(ranking, ranking[k]) == k + 1
  {
    if k < |ranking| - 1 {
      assert Precedes(ranking[k], ranking[|ranking| - 1]);
      RowNumberIsIndex(ranking[..|ranking| - 1], k);
    }
  }

  /** Positions are a permutation of 1..n: every entry has one in that range, every place in
      the range is taken, and no two entries share one. */
  lemma PositionsArePermutation(es: seq<Entry>, i: nat, j: nat, place: nat)
    requires Valid(es) && i < |es| && j < |es| && 1 <= place <= |es|
    ensures 1 <= Position(es, es[i]) <= |es|
    ensures Position(es, es[i]) == Position(es, es[j]) ==> i == j
    ensures exists k :: 0 <= k < |es| && Position(es, es[k]) == place
  {
    var ranking := Ranking(es, es);
    RankingIsRanked(es, es);
    ScoresCount(es, es);
    assert |ranking| == |multiset(ranking)| == |es|;
    var a := IndexIn(es, i);
    var b := IndexIn(es, j);
    RowNumberIsIndex(ranking, a);
    RowNumberIsIndex(ranking, b);
    if a == b { assert es[i].id == es[j].id; }
    RowNumberIsIndex(ranking, place - 1);
    assert ranking[place - 1] in multiset(ranking);
    ScoreIsOfAnEntry(es, es, ranking[place - 1]);
    var k :| 0 <= k < |es| && ranking[place - 1] == ScoreOf(es, es[k]);
    assert Position(es, es[k]) == place;
  }

  lemma IndexIn(es: seq<Entry>, i: nat) returns (a: nat)
    requires Valid(es) && i < |es|
    ensures a < |Ranking(es, es)| && Ranking(es, es)[a] == ScoreOf(es, es[i])
  {
    RankingIsRanked(es, es);
    ScoreIsOfAnEntry(es, es, ScoreOf(es, es[i]));
    assert ScoreOf(es, es[i]) in multiset(Ranking(es, es));
    a :| 0 <= a < |Ranking(es, es)| && Ranking(es, es)[a] == ScoreOf(es, es[i]);
  }

  /** The entries ranked before a score. */
  function Ahead(es: seq<Entry>, s: Score): set<nat> {
    set x | x in es && Precedes(ScoreOf(es, x), s) :: x.id
  }

  function Ids(ranking: seq<Score>): set<nat> {
    if ranking == [] then {} else Ids(ranking[..|ranking| - 1]) + {ranking[|ranking| - 1].id}
  }

  lemma {:induction false} IdsMembers(ranking: seq<Score>, id: nat)
    ensures id in Ids(ranking) <==> exists k :: 0 <= k < |ranking| && ranking[k].id == id
  {
    if ranking != [] {
      var init := ranking[..|ranking| - 1];
      IdsMembers(init, id);
      if k :| 0 <= k < |ranking| && ranking[k].id == id { assert k < |init| ==> init[k].id == id; }
      if k :| 0 <= k < |init| && init[k].id == id { assert ranking[k].id == id; }
    }
  }

  lemma {:induction false} IdsAreDistinct(ranking: seq<Score>)
    requires forall i, j | 0 <= i < j < |ranking| :: ranking[i].id != ranking[j].id
    ensures |Ids(ranking)| == |ranking|
  {
    if ranking != [] {
      var init := ranking[..|ranking| - 1];
      IdsAreDistinct(init);
      IdsMembers(init, ranking[|init|].id);
    }
  }

  /** An entry's position is one more than the number of entries ranked before it. */
  lemma PositionCounts(es: seq<Entry>, i: nat)
    requires Valid(es) && i < |es|
    ensures Position(es, es[i]) == |Ahead(es, ScoreOf(es, es[i]))| + 1
  {
    var ranking, s := Ranking(es, es), ScoreOf(es, es[i]);
    var a := IndexIn(es, i);
    RankingIsRanked(es, es);
    RowNumberIsIndex(ranking, a);
    RankedIdsDiffer(es);
    IdsAreDistinct(ranking[..a]);
    AheadIsThePrefix(es, a);
  }

  lemma RankedIdsDiffer(es: seq<Entry>)
    requires Valid(es)
    ensures var ranking := Ranking(es, es); forall i, j | 0 <= i < j < |ranking| :: ranking[i].id != ranking[j].id
  {
    var ranking := Ranking(es, es);
    RankingIsRanked(es, es);
    forall i, j | 0 <= i < j < |ranking| ensures ranking[i].id != ranking[j].id {
      assert ranking[i] in multiset(ranking) && ranking[j] in multiset(ranking);
      ScoreIsOfAnEntry(es, es, ranking[i]);
      ScoreIsOfAnEntry(es, es, ranking[j]);
      var k :| 0 <= k < |es| && ranking[i] == ScoreOf(es, es[k]);
      var l :| 0 <= l < |es| && ranking[j] == ScoreOf(es, es[l]);
      assert Precedes(ranking[i], ranking[j]);
    }
  }

  lemma AheadIsThePrefix(es: seq<Entry>, a: nat)
    requires Valid(es) && a < |Ranking(es, es)|
    ensures Ahead(es, Ranking(es, es)[a]) == Ids(Ranking(es, es)[..a])
  {
    var ranking := Ranking(es, es);
    var ahead, ids := Ahead(es, ranking[a]), Ids(ranking[..a]);
    forall id | id in ahead ensures id in ids {
      var e :| e in es && Precedes(ScoreOf(es, e), ranking[a]) && e.id == id;
      var i :| 0 <= i < |es| && es[i] == e;
      AheadIsBefore(es, a, i);
    }
    forall id | id in ids ensures id in ahead {
      IdsMembers(ranking[..a], id);
      var k :| 0 <= k < a && ranking[..a][k].id == id;
      BeforeIsAhead(es, a, k);
    }
  }

  lemma AheadIsBefore(es: seq<Entry>, a: nat, i: nat)
    requires Valid(es) && a < |Ranking(es, es)| && i < |es| && Precedes(ScoreOf(es, es[i]), Ranking(es, es)[a])
    ensures es[i].id in Ids(Ranking(es, es)[..a])
  {
    var k := IndexIn(es, i);
    RankingIsRanked(es, es);
    assert Ranking(es, es)[..a][k].id == es[i].id;
    IdsMembers(Ranking(es, es)[..a], es[i].id);
  }

  lemma BeforeIsAhead(es: seq<Entry>, a: nat, k: nat)
    requires Valid(es) && k < a < |Ranking(es, es)|
    ensures Ranking(es, es)[k].id in Ahead(es, Ranking(es, es)[a])
  {
    var ranking := Ranking(es, es);
    RankingIsRanked(es, es);
    assert ranking[k] in multiset(ranking);
    ScoreIsOfAnEntry(es, es, ranking[k]);
    var i :| 0 <= i < |es| && ranking[k] == ScoreOf(es, es[i]);
    assert es[i] in es;
  }

  // ---------------------------------------------------------------- the effect of a join

  /** When `e` joins, the entry `id` goes from behind `x` to ahead of it. */
  predicate Overtakes(es: seq<Entry>, e: Entry, x: Entry, id: nat) {
    id !in Ahead(es, ScoreOf(es, x)) && id in Ahead(es + [e], ScoreOf(es + [e], x))
  }

  /** Joining never costs the referrer a place. */
  lemma ReferrerNeverFallsBack(es: seq<Entry>, e: Entry, i: nat)
    requires Valid(es) && Valid(es + [e]) && i < |es| && e.referredBy == Some(es[i].id)
    ensures Position(es + [e], es[i]) <= Position(es, es[i])
  {
    var more := es + [e];
    NewcomerHasNone(es, e);
    PositionCounts(es, i);
    PositionCounts(more, i);
    var before, after := Ahead(es, ScoreOf(es, es[i])), Ahead(more, ScoreOf(more, more[i]));
    forall id | id in after ensures id in before {
      var x :| x in more && Precedes(ScoreOf(more, x), ScoreOf(more, more[i])) && x.id == id;
      assert x in es;
    }
    Subset(after, before);
  }

  lemma Subset(a: set<nat>, b: set<nat>)
    requires a <= b
    ensures |a| <= |b|
  {
    assert b == a + (b - a);
  }

  /** Everyone else keeps whoever was ahead; only the referrer and the newcomer may be added. */
  lemma AheadAfterJoin(es: seq<Entry>, e: Entry, i: nat)
    requires Valid(es) && Valid(es + [e]) && i < |es| && e.referredBy != Some(es[i].id)
    ensures var before, after := Ahead(es, ScoreOf(es, es[i])), Ahead(es + [e], ScoreOf(es + [e], es[i]));
      before <= after <= before + {e.id} + (if e.referredBy.Some? then {e.referredBy.value} else {})
    ensures e.id in Ahead(es + [e], ScoreOf(es + [e], es[i]))
      <==> Precedes(Score(0, e.createdAt, e.id), ScoreOf(es, es[i]))
    ensures e.id !in Ahead(es, ScoreOf(es, es[i]))
  {
    var more := es + [e];
    NewcomerHasNone(es, e);
    var s, s' := ScoreOf(es, es[i]), ScoreOf(more, es[i]);
    assert s == s';
    forall x | x in es ensures x in more && x.id != e.id {
      var k :| 0 <= k < |es| && es[k] == x;
      assert more[k] == x && more[|es|] == e;
    }
    forall x | x in es && Precedes(ScoreOf(es, x), s) ensures Precedes(ScoreOf(more, x), s') {}
    assert e in more by { assert more[|es|] == e; }
    assert ScoreOf(more, e) == Score(0, e.createdAt, e.id);
  }

  /** Nobody but the referrer moves forward, and others move back by at most one place for the
      referrer passing them and one for a newcomer with an earlier timestamp. */
  lemma OthersMoveBackAtMost(es: seq<Entry>, e: Entry, i: nat)
    requires Valid(es) && Valid(es + [e]) && i < |es| && e.referredBy != Some(es[i].id)
    ensures var before, after := Position(es, es[i]), Position(es + [e], es[i]);
      after == before
        + (if e.referredBy.Some? && Overtakes(es, e, es[i], e.referredBy.value) then 1 else 0)
        + (if Precedes(Score(0, e.createdAt, e.id), ScoreOf(es, es[i])) then 1 else 0)
  {
    var more := es + [e];
    PositionCounts(es, i);
    PositionCounts(more, i);
    AheadAfterJoin(es, e, i);
    if e.referredBy == Some(e.id) { SelfReferral(es, e); }
    AddedAtMostTwo(Ahead(es, ScoreOf(es, es[i])), Ahead(more, ScoreOf(more, es[i])), e.referredBy, e.id);
  }

  lemma AddedAtMostOne(before: set<nat>, after: set<nat>, x: nat)
    requires before <= after <= before + {x}
    ensures |after| == |before| + (if x !in before && x in after then 1 else 0)
  {
    if x !in before && x in after { assert after == before + {x}; } else { assert after == before; }
  }

  lemma AddedAtMostTwo(before: set<nat>, after: set<nat>, r: Option<nat>, e: nat)
    requires before <= after <= before + {e} + (if r.Some? then {r.value} else {})
    requires e !in before && r != Some(e)
    ensures |after| == |before| +
      (if r.Some? && r.value !in before && r.value in after then 1 else 0) + (if e in after then 1 else 0)
  {
    var others := after - {e};
    AddedAtMostOne(others, after, e);
    if r.Some? { AddedAtMostOne(before, others, r.value); } else { assert others == before; }
  }

  lemma SelfReferral(es: seq<Entry>, e: Entry)
    requires Valid(es + [e])
    ensures e.referredBy != Some(e.id)
  {
    var more := es + [e];
    assert RefOk(more, |es|);
    assert more[|es|] == e;
  }

  lemma NoneIsBehind(es: seq<Entry>, e: Entry, s: Score)
    requires Valid(es + [e]) && (forall k | 0 <= k < |es| :: es[k].createdAt < e.createdAt)
    requires IsScore(es + [e], es + [e], s)
    ensures !Precedes(ScoreOf(es + [e], e), s)
  {
    var more := es + [e];
    NewcomerHasNone(es, e);
    var k :| 0 <= k < |more| && s == ScoreOf(more, more[k]);
    assert k < |es| ==> more[k] == es[k];
  }

  lemma NewcomerIsLast(es: seq<Entry>, e: Entry)
    requires Valid(es + [e]) && (forall k | 0 <= k < |es| :: es[k].createdAt < e.createdAt)
    ensures Position(es + [e], e) == |es| + 1
  {
    var more := es + [e];
    var ranking := Ranking(more, more);
    RankingIsRanked(more, more);
    ScoresCount(more, more);
    assert |ranking| == |multiset(ranking)| == |more|;
    var a := IndexIn(more, |es|);
    RowNumberIsIndex(ranking, a);
    assert ranking[|es|] in multiset(ranking);
    ScoreIsOfAnEntry(more, more, ranking[|es|]);
    NoneIsBehind(es, e, ranking[|es|]);
  }

  /** A join later than everyone is placed last, and then costs each of the others at most the
      one place its referrer may gain. */
  lemma LaterJoinIsLast(es: seq<Entry>, e: Entry, i: nat)
    requires Valid(es) && Valid(es + [e])
    requires forall k | 0 <= k < |es| :: es[k].createdAt < e.createdAt
    ensures Position(es + [e], e) == |es| + 1
    ensures i < |es| ==> Position(es + [e], es[i]) <= Position(es, es[i]) + 1
  {
    NewcomerIsLast(es, e);
    if i < |es| {
      if e.referredBy == Some(es[i].id) { ReferrerNeverFallsBack(es, e, i); } else { OthersMoveBackAtMost(es, e, i); }
    }
  }

  // ---------------------------------------------------------------- joining

  function ByEmail(es: seq<Entry>, email: string): (e: Option<Entry>)
    ensures e.Some? ==> e.value in es && e.value.email == email
  {
    if es == [] then None
    else if es[|es| - 1].email == email then Some(es[|es| - 1])
    else ByEmail(es[..|es| - 1], email)
  }

  lemma {:induction false} ByEmailFinds(es: seq<Entry>, email: string)
    ensures ByEmail(es, email).Some? <==> HasEmail(es, email)
  {
    if es != [] {
      var init := es[..|es| - 1];
      ByEmailFinds(init, email);
      if i :| 0 <= i < |es| && es[i].email == email { assert i < |init| ==> init[i].email == email; }
      if i :| 0 <= i < |init| && init[i].email == email { assert es[i].email == email; }
    }
  }

  function ByCode(es: seq<Entry>, code: string): (e: Option<Entry>)
    ensures e.Some? ==> e.value in es && e.value.code == code
  {
    if es == [] then None
    else if es[|es| - 1].code == code then Some(es[|es| - 1])
    else ByCode(es[..|es| - 1], code)
  }

  function Referrer(es: seq<Entry>, code: Option<string>): Option<nat> {
    if code.None? then None
    else
      var found := ByCode(es, code.value);
      if found.Some? then Some(found.value.id) else None
  }

  lemma {:induction false} ByCodeFinds(es: seq<Entry>, code: string)
    ensures ByCode(es, code).Some? <==> HasCode(es, code)
  {
    if es != [] {
      var init := es[..|es| - 1];
      ByCodeFinds(init, code);
      assert es == init + [es[|es| - 1]];
      if i :| 0 <= i < |init| && init[i].code == code { assert es[i].code == code; }
      if i :| 0 <= i < |es| && es[i].code == code { assert i < |init| ==> init[i].code == code; }
    }
  }

  /** A join is credited to the one entry that owns the code it came with, and to nobody when it
      came without one or nobody owns it. */
  lemma ReferrerOwnsTheCode(es: seq<Entry>, code: Option<string>, id: nat)
    requires Valid(es)
    ensures Referrer(es, code) == Some(id) <==>
      exists i :: 0 <= i < |es| && es[i].id == id && code == Some(es[i].code)
  {
    if code.Some? {
      ByCodeFinds(es, code.value);
      var found := ByCode(es, code.value);
      if i :| 0 <= i < |es| && es[i].id == id && es[i].code == code.value {
        assert HasCode(es, code.value);
        var j :| 0 <= j < |es| && es[j] == found.value;
        assert i == j;
      }
      if found.Some? { var j :| 0 <= j < |es| && es[j] == found.value; assert es[j].code == code.value; }
    }
  }

  datatype Outcome = Result(entry: Entry, joined: bool, position: nat, referrals: nat) | NoCodeFree

  /** The result reports an entry of the table with its rank and its referrals. */
  function Reported(es: seq<Entry>, e: Entry, joined: bool): Outcome {
    Result(e, joined, Position(es, e), Referrals(es, e.id))
  }

  /** What other sessions commit before each attempt, and the tokens drawn. */
  datatype World = World(arrivals: nat -> Option<Entry>, tokens: nat -> string)

  /** The row was appended as the email's only one, credited to the code's owner at the start. */
  ghost predicate JoinedOk(before: seq<Entry>, after: seq<Entry>, email: string, code: Option<string>, id: nat,
        e: Entry) {
    && after != [] && after[|after| - 1] == e && e.id == id && e.email == email
    && !HasEmail(after[..|after| - 1], email) && e.referredBy == Referrer(before, code)
  }

  /** What a call leaves behind and returns. */
  ghost predicate OutcomeOk(before: seq<Entry>, after: seq<Entry>, email: string, code: Option<string>, id: nat,
        tokens: nat -> string, outcome: Outcome) {
    match outcome
    case Result(e, joined, position, referrals) =>
      && e in after && e.email == email && outcome == Reported(after, e, joined)
      && (if joined then JoinedOk(before, after, email, code, id, e) && referrals == 0 else !HasId(after, id))
    case NoCodeFree =>
      !HasEmail(after, email) && !HasId(after, id) && forall k: nat | k < ATTEMPTS :: HasCode(after, tokens(k))
  }

  lemma KnownIsOk(before: seq<Entry>, es: seq<Entry>, email: string, code: Option<string>, id: nat,
        tokens: nat -> string)
    requires !HasId(es, id)
    ensures ByEmail(es, email).Some? <==> HasEmail(es, email)
    ensures ByEmail(es, email).Some? ==>
              OutcomeOk(before, es, email, code, id, tokens, Reported(es, ByEmail(es, email).value, false))
  {
    ByEmailFinds(es, email);
  }

  class WaitlistTable {
    var entries: seq<Entry>

    constructor ()
      ensures entries == [] && Valid(entries)
    {
      entries := [];
    }

    /** Another session's row, if the constraints admit it. */
    method Arrive(row: Option<Entry>, own: nat)
      requires Valid(entries) && !HasId(entries, own)
      modifies this
      ensures Valid(entries) && !HasId(entries, own)
      ensures entries == old(entries) || (row.Some? && Insertable(old(entries), row.value) &&
        entries == old(entries) + [row.value])
    {
      if row.Some? && row.value.id != own && Insertable(entries, row.value) {
        InsertKeepsValid(entries, row.value);
        entries := entries + [row.value];
      }
    }

    /** The nested insert; refused when a unique constraint fails. */
    method Insert(e: Entry) returns (inserted: bool)
      requires Valid(entries) && !HasId(entries, e.id) && (e.referredBy.Some? ==> HasId(entries, e.referredBy.value))
      modifies this
      ensures Valid(entries)
      ensures inserted <==> !HasEmail(old(entries), e.email) && !HasCode(old(entries), e.code)
      ensures entries == if inserted then old(entries) + [e] else old(entries)
      ensures inserted ==> Referrals(entries, e.id) == 0
    {
      if HasEmail(entries, e.email) || HasCode(entries, e.code) { return false; }
      InsertKeepsValid(entries, e);
      NewcomerHasNone(entries, e);
      entries := entries + [e];
      return true;
    }

    /** One attempt to insert the row; none when its code was taken and another is to be drawn. */
    method Attempt(e: Entry, arrival: Option<Entry>, ghost start: seq<Entry>, code: Option<string>,
          ghost tokens: nat -> string)
      returns (outcome: Option<Outcome>)
      requires Valid(entries) && !HasId(entries, e.id) && start <= entries && e.referredBy == Referrer(start, code)
      modifies this
      ensures Valid(entries) && old(entries) <= entries && |entries| <= |old(entries)| + 2
      ensures outcome.None? ==>
        && |entries| <= |old(entries)| + 1
        && !HasId(entries, e.id) && !HasEmail(entries, e.email) && HasCode(entries, e.code)
      ensures outcome.Some? ==> OutcomeOk(start, entries, e.email, code, e.id, tokens, outcome.value)
    {
      Arrive(arrival, e.id);
      ReferrerIsThere(start, entries, code);
      ghost var tried := entries;
      var inserted := Insert(e);
      if inserted {
        return Some(Reported(entries, e, true));
      }
      KnownIsOk(start, entries, e.email, code, e.id, tokens);
      var existing := ByEmail(entries, e.email);
      return if existing.Some? then Some(Reported(entries, existing.value, false)) else None;
    }

    /** One email never gets two entries, whatever other sessions insert meanwhile: the caller's
        row is inserted once or the existing row is returned, and the attempts are bounded. */
    method Join(email: string, referralCode: Option<string>, id: nat, createdAt: int, world: World)
      returns (outcome: Outcome)
      requires Valid(entries) && !HasId(entries, id)
      modifies this
      ensures Valid(entries) && old(entries) <= entries && |entries| <= |old(entries)| + ATTEMPTS + 1
      ensures OutcomeOk(old(entries), entries, email, referralCode, id, world.tokens, outcome)
      ensures HasEmail(old(entries), email) ==> entries == old(entries)
    {
      KnownIsOk(entries, entries, email, referralCode, id, world.tokens);
      var existing := ByEmail(entries, email);
      if existing.Some? { return Reported(entries, existing.value, false); }
      var referredBy := Referrer(entries, referralCode);
      for attempt := 0 to ATTEMPTS
        invariant Valid(entries) && old(entries) <= entries && |entries| <= |old(entries)| + attempt
        invariant !HasId(entries, id) && !HasEmail(entries, email)
        invariant forall k: nat | k < attempt :: HasCode(entries, world.tokens(k))
      {
        ghost var before := entries;
        var entry := Entry(id, email, world.tokens(attempt), referredBy, createdAt);
        var ended := Attempt(entry, world.arrivals(attempt), old(entries), referralCode, world.tokens);
        if ended.Some? { return ended.value; }
        CodesStay(before, entries, world.tokens, attempt);
      }
      return NoCodeFree;
    }
  }

  lemma CodesStay(es: seq<Entry>, more: seq<Entry>, tokens: nat -> string, n: nat)
    requires es <= more && forall k: nat | k < n :: HasCode(es, tokens(k))
    ensures forall k: nat | k < n :: HasCode(more, tokens(k))
  {
    forall k: nat | k < n ensures HasCode(more, tokens(k)) {
      var i :| 0 <= i < |es| && es[i].code == tokens(k);
      assert more[i].code == tokens(k);
    }
  }

  lemma ReferrerIsThere(es: seq<Entry>, more: seq<Entry>, code: Option<string>)
    requires es <= more
    ensures Referrer(es, code).Some? ==> HasId(more, Referrer(es, code).value)
  {
    if Referrer(es, code).Some? {
      var referrer := ByCode(es, code.value).value;
      var i :| 0 <= i < |es| && es[i] == referrer;
      assert more[i].id == referrer.id;
    }
  }
}
