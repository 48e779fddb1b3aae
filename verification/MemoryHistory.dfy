/** What every history of consolidations and forgets keeps in the memory graph. */
module MemoryHistory {
  import opened Options
  import opened MemoryGraph

  datatype Event = Consolidate(job: Job, consolidation: Consolidation) | Forget(user: User, ids: set<Id>)

  ghost function Step(g: Graph, e: Event): Graph {
    match e
    case Consolidate(job, c) => Persisted(g, job, c)
    case Forget(user, ids) => Forgotten(g, user, ids)
  }

  ghost function Run(g: Graph, events: seq<Event>): Graph
    decreases |events|
  {
    if events == [] then g else Run(Step(g, events[0]), events[1..])
  }

  lemma StepKeepsInv(g: Graph, e: Event)
    requires Inv(g)
    ensures Inv(Step(g, e))
  {
    match e
    case Consolidate(job, c) => PersistedKeepsInv(g, job, c);
    case Forget(user, ids) => ForgottenKeepsInv(g, user, ids);
  }

  lemma {:induction false} RunKeepsInv(g: Graph, events: seq<Event>)
    requires Inv(g)
    ensures Inv(Run(g, events))
    decreases |events|
  {
    if events != [] {
      StepKeepsInv(g, events[0]);
      RunKeepsInv(Step(g, events[0]), events[1..]);
    }
  }

  /** The graph invariant holds in every reachable state. */
  lemma GraphInvariant(events: seq<Event>)
    ensures Inv(Run(Empty, events))
  {
    RunKeepsInv(Empty, events);
  }

  // ---------------------------------------------------------------- ageing

  predicate EpisodeAges(a: Episode, b: Episode) {
    b.user == a.user && b.job == a.job && b.occurredAt == a.occurredAt
    && (b == a || (!b.retrievable && b.summary == FORGOTTEN))
  }

  predicate FactAges(g: Graph, h: Graph, id: Id)
    requires id in g.facts
  {
    id in h.facts ==> FactEvolves(g.facts[id], h.facts[id])
  }

  predicate EpisodeKeptOrHidden(g: Graph, h: Graph, id: Id)
    requires id in g.episodes
  {
    id in h.episodes && EpisodeAges(g.episodes[id], h.episodes[id])
  }

  /** Facts may disappear and never come back; episodes stay, at worst hidden. */
  ghost predicate Ages(g: Graph, h: Graph) {
    && g.next <= h.next
    && (forall id {:trigger FactAges(g, h, id)} | id in g.facts :: FactAges(g, h, id))
    && (forall id {:trigger EpisodeKeptOrHidden(g, h, id)} | id in g.episodes :: EpisodeKeptOrHidden(g, h, id))
    && NewRowsAreNewer(g, h)
  }

  lemma EvolvesAges(g: Graph, h: Graph)
    requires Evolves(g, h)
    ensures Ages(g, h)
  {
    forall id | id in g.facts ensures FactAges(g, h, id) { assert FactKept(g, h, id); }
    forall id | id in g.episodes ensures EpisodeKeptOrHidden(g, h, id) { assert EpisodeKept(g, h, id); }
  }

  lemma AgesTransitive(g: Graph, h: Graph, k: Graph)
    requires IdsBelowNext(g) && Ages(g, h) && Ages(h, k)
    ensures Ages(g, k)
  {
    forall id | id in g.facts ensures FactAges(g, k, id) {
      assert FactAges(g, h, id) && (id in h.facts ==> FactAges(h, k, id));
    }
    forall id | id in g.episodes ensures EpisodeKeptOrHidden(g, k, id) {
      assert EpisodeKeptOrHidden(g, h, id) && EpisodeKeptOrHidden(h, k, id);
    }
  }

  lemma StepAges(g: Graph, e: Event)
    requires Inv(g)
    ensures Ages(g, Step(g, e))
  {
    match e
    case Consolidate(job, c) =>
      PersistedKeepsInv(g, job, c);
      EvolvesAges(g, Step(g, e));
    case Forget(user, ids) =>
      forall id | id in g.episodes ensures EpisodeKeptOrHidden(g, Step(g, e), id) {}
      forall id | id in g.facts ensures FactAges(g, Step(g, e), id) {}
  }

  /** Over any history the confidence and importance of a fact never decrease, a superseded
      fact never becomes active again, a deleted fact id never returns, and a hidden episode
      never becomes retrievable again. */
  lemma {:induction false} RunAges(g: Graph, events: seq<Event>)
    requires Inv(g)
    ensures Ages(g, Run(g, events))
    decreases |events|
  {
    if events == [] {
      EvolvesAges(g, g);
    } else {
      StepKeepsInv(g, events[0]);
      StepAges(g, events[0]);
      RunAges(Step(g, events[0]), events[1..]);
      AgesTransitive(g, Step(g, events[0]), Run(g, events));
    }
  }

  // ---------------------------------------------------------------- forgetting is final

  /** Whatever happens after a forget: the facts and their evidence are gone for good, and
      every episode that was evidence for one of them is hidden and stays hidden. */
  lemma ForgettingIsFinal(g: Graph, user: User, ids: set<Id>, events: seq<Event>, fact: Id)
    requires Inv(g) && fact in Chosen(g, user, ids)
    ensures var k := Run(Forgotten(g, user, ids), events);
      && fact !in k.facts
      && (forall key | key in k.evidence :: key.0 != fact)
      && (forall e | (fact, e) in g.evidence ::
            e in k.episodes && !k.episodes[e].retrievable && k.episodes[e].summary == FORGOTTEN)
  {
    var h := Forgotten(g, user, ids);
    var k := Run(h, events);
    ForgottenKeepsInv(g, user, ids);
    RunKeepsInv(h, events);
    RunAges(h, events);
    assert fact !in h.facts && fact < h.next;
    forall e | (fact, e) in g.evidence
      ensures e in k.episodes && !k.episodes[e].retrievable && k.episodes[e].summary == FORGOTTEN
    {
      assert (fact, e).0 in Chosen(g, user, ids) && e in Tainted(g, Chosen(g, user, ids));
      assert e in h.episodes && h.episodes[e] == Hidden(g.episodes[e]);
      assert EpisodeKeptOrHidden(h, k, e);
    }
  }

  /** A forget touches nothing of other users, and none of the facts that were not chosen
      except for links to the deleted ones. */
  lemma ForgettingIsContained(g: Graph, user: User, ids: set<Id>)
    requires Inv(g)
    ensures var h := Forgotten(g, user, ids);
      && h.facts.Keys == g.facts.Keys - Chosen(g, user, ids)
      && (forall id | id in h.facts :: h.facts[id].(supersededBy := None) == g.facts[id].(supersededBy := None))
      && (forall id | id in h.facts && g.facts[id].user != user :: h.facts[id] == g.facts[id])
      && (forall e | e in g.entities && g.entities[e].user != user :: e in h.entities && h.entities[e] == g.entities[e])
  {
    forall id | id in g.facts && g.facts[id].user != user && Chosen(g, user, ids) != {}
      ensures Forgotten(g, user, ids).facts[id] == g.facts[id]
    {
      assert HeirOk(g, id);
    }
  }

  // ---------------------------------------------------------------- jobs

  lemma JobStaysDone(g: Graph, events: seq<Event>, job: Id)
    requires Inv(g) && JobDone(g, job)
    ensures JobDone(Run(g, events), job)
  {
    RunAges(g, events);
    var e :| e in g.episodes && g.episodes[e].job == job;
    assert EpisodeKeptOrHidden(g, Run(g, events), e);
  }

  lemma PersistedIsDone(g: Graph, job: Job, c: Consolidation)
    requires Inv(g) && !SaysNothing(c)
    ensures JobDone(Persisted(g, job, c), job.id)
  {
    if !JobDone(g, job.id) {
      var g1 := WithEpisode(g, job, c);
      WithEpisodeKeepsInv(g, job, c);
      AppliedAllKeepsInv(g1, TurnOf(g, job), c.operations);
      assert g.next in Persisted(g, job, c).episodes;
    }
  }

  /** A job that stored something once never stores anything again, at any later time and
      whatever the model proposes on the retry. */
  lemma RepersistingChangesNothing(g: Graph, job: Job, c: Consolidation, events: seq<Event>, again: Job,
        d: Consolidation)
    requires Inv(g) && !SaysNothing(c) && again.id == job.id
    ensures var k := Run(Persisted(g, job, c), events); Persisted(k, again, d) == k
  {
    PersistedKeepsInv(g, job, c);
    PersistedIsDone(g, job, c);
    JobStaysDone(Persisted(g, job, c), events, job.id);
  }

  // ---------------------------------------------------------------- supersession

  /** Following the replacements of a fact: always to a newer one, so it ends. */
  ghost function Chain(g: Graph, id: Id): seq<Id>
    requires SupersessionOk(g) && IdsBelowNext(g) && id in g.facts
    decreases g.next - id
  {
    match g.facts[id].supersededBy
    case None => [id]
    case Some(heir) =>
      assert HeirOk(g, id);
      [id] + Chain(g, heir)
  }

  /** Along the chain every fact is newer than the one before and starts before or when that
      one ends, and only the last can be active. */
  lemma {:induction false} ChainHasNoGap(g: Graph, id: Id)
    requires Inv(g) && id in g.facts
    ensures var c := Chain(g, id);
      && (forall x | x in c :: x in g.facts)
      && (forall i | 0 <= i < |c| - 1 ::
            && c[i] < c[i + 1] && g.facts[c[i]].status == Superseded && g.facts[c[i]].validUntil.Some?
            && g.facts[c[i + 1]].validFrom <= g.facts[c[i]].validUntil.value)
      && c[0] == id && g.facts[c[|c| - 1]].supersededBy.None?
    decreases g.next - id
  {
    assert HeirOk(g, id);
    if g.facts[id].supersededBy.Some? {
      var heir := g.facts[id].supersededBy.value;
      ChainHasNoGap(g, heir);
      var c, rest := Chain(g, id), Chain(g, heir);
      assert c == [id] + rest;
      forall i | 0 <= i < |c| - 1
        ensures && c[i] < c[i + 1] && g.facts[c[i]].status == Superseded && g.facts[c[i]].validUntil.Some?
                && g.facts[c[i + 1]].validFrom <= g.facts[c[i]].validUntil.value
      {
        if i > 0 { assert c[i] == rest[i - 1] && c[i + 1] == rest[i]; }
      }
    }
  }

  predicate Backdated(t: Turn, op: Operation) {
    op.validFrom.Some? && op.validFrom.value < t.occurredAt
  }

  /** An active fact with the same subject, predicate and object already exists. */
  ghost predicate SaidAlready(g: Graph, t: Turn, op: Operation) {
    var (g1, subject, target) := ResolvedBoth(g, t, op);
    exists id :: ActiveSame(g1, id, t.user, subject, op.relation, target)
  }

  /** A supersede that finds nothing said already retires the fact it names in favour of a new
      one, which starts exactly where the old one ends unless it is backdated. */
  lemma SupersedeRetires(g: Graph, t: Turn, op: Operation, prior: Id)
    requires Inv(g) && op.verb == Supersede && Existing(g, t, op) == Some(prior) && !SaidAlready(g, t, op)
    ensures var h, f := Applied(g, t, op), ResolvedBoth(g, t, op).0.next;
      && f !in g.facts && h.facts.Keys == g.facts.Keys + {f}
      && h.facts[prior] ==
           g.facts[prior].(status := Superseded, supersededBy := Some(f), validUntil := h.facts[prior].validUntil)
      && h.facts[f].status == Active && h.facts[f].statement == op.statement && h.facts[f].supersededBy.None?
      && h.facts[prior].validUntil.Some? && h.facts[f].validFrom <= h.facts[prior].validUntil.value
      && (h.facts[f].validFrom == h.facts[prior].validUntil.value <==> !Backdated(t, op))
  {
    ResolvedBothKeeps(g, t, op);
    var (g1, subject, target) := ResolvedBoth(g, t, op);
    assert Existing(g1, t, op) == Some(prior) && g1.next !in g1.facts;
    assert FindDuplicate(g1, t.user, subject, op.relation, target) == None;
    assert Applied(g, t, op) == Inserted(g1, t, op, Some(prior), subject, target);
  }

  /** Otherwise it adds no fact and retires none: the old fact keeps its status and dates. */
  lemma SupersedeOnlyConfirms(g: Graph, t: Turn, op: Operation, prior: Id)
    requires Inv(g) && op.verb == Supersede && Existing(g, t, op) == Some(prior) && SaidAlready(g, t, op)
    ensures var h := Applied(g, t, op);
      && h.facts.Keys == g.facts.Keys
      && (forall id | id in g.facts ::
            h.facts[id].(confidence := 0.0, importance := 0) == g.facts[id].(confidence := 0.0, importance := 0))
  {
    ResolvedBothKeeps(g, t, op);
    var (g1, subject, target) := ResolvedBoth(g, t, op);
    var d := FindDuplicate(g1, t.user, subject, op.relation, target).value;
    assert ActiveSame(g1, d, t.user, subject, op.relation, target);
    assert Applied(g, t, op) == Confirmed(g1, t, op, d);
  }

  ghost predicate Replaces(g: Graph, h: Graph, prior: Id, f: Id) {
    && f !in g.facts && h.facts.Keys == g.facts.Keys + {f}
    && prior in h.facts && h.facts[prior].status == Superseded && h.facts[prior].supersededBy == Some(f)
  }

  /** So a supersede replaces the fact it names exactly when nothing active says the new one yet. */
  lemma SupersedeRetiresExactly(g: Graph, t: Turn, op: Operation, prior: Id)
    requires Inv(g) && op.verb == Supersede && Existing(g, t, op) == Some(prior)
    ensures !SaidAlready(g, t, op) <==> Replaces(g, Applied(g, t, op), prior, ResolvedBoth(g, t, op).0.next)
    ensures SaidAlready(g, t, op) <==> Applied(g, t, op).facts.Keys == g.facts.Keys
  {
    var f := ResolvedBoth(g, t, op).0.next;
    if SaidAlready(g, t, op) {
      SupersedeOnlyConfirms(g, t, op, prior);
      assert f !in g.facts ==> f !in Applied(g, t, op).facts;
    } else {
      SupersedeRetires(g, t, op, prior);
      assert f in Applied(g, t, op).facts;
      assert prior in g.facts;
    }
  }

  ghost predicate SaysSo(g: Graph, id: Id, t: Turn, op: Operation, subject: Id, target: Target) {
    && ActiveSame(g, id, t.user, subject, op.relation, target) && (id, t.episode) in g.evidence
    && op.confidence <= g.facts[id].confidence && op.importance <= g.facts[id].importance
  }

  lemma RecordedSaysSo(g: Graph, t: Turn, op: Operation)
    requires Inv(g) && t.episode in g.episodes && op.verb != Reinforce
    ensures var (_, subject, target) := ResolvedBoth(g, t, op);
      exists id :: SaysSo(Applied(g, t, op), id, t, op, subject, target)
  {
    ResolvedBothKeeps(g, t, op);
    var h := Applied(g, t, op);
    var (g1, subject, target) := ResolvedBoth(g, t, op);
    match FindDuplicate(g1, t.user, subject, op.relation, target)
    case Some(d) =>
      assert ActiveSame(g1, d, t.user, subject, op.relation, target);
      assert SaysSo(h, d, t, op, subject, target);
    case None =>
      assert g1.next !in g1.facts;
      assert SaysSo(h, g1.next, t, op, subject, target);
  }

  ghost predicate AloneSaysSo(g: Graph, id: Id, t: Turn, op: Operation, subject: Id, target: Target) {
    SaysSo(g, id, t, op, subject, target)
    && forall j | ActiveSame(g, j, t.user, subject, op.relation, target) :: j == id
  }

  lemma SaysSoAlone(g: Graph, id: Id, t: Turn, op: Operation, subject: Id, target: Target)
    requires ActiveFactsUnique(g) && SaysSo(g, id, t, op, subject, target)
    ensures AloneSaysSo(g, id, t, op, subject, target)
  {
    forall j | ActiveSame(g, j, t.user, subject, op.relation, target) ensures j == id {
      assert SameActive(g, j, id);
    }
  }

  /** After an add or a supersede there is exactly one active fact saying just that, at least
      as confident and important as asked, with evidence from this very episode. */
  lemma RecordedIsKnown(g: Graph, t: Turn, op: Operation)
    requires Inv(g) && t.episode in g.episodes && op.verb != Reinforce
    ensures var (_, subject, target) := ResolvedBoth(g, t, op);
      exists id :: AloneSaysSo(Applied(g, t, op), id, t, op, subject, target)
  {
    var (_, subject, target) := ResolvedBoth(g, t, op);
    var h := Applied(g, t, op);
    RecordedSaysSo(g, t, op);
    var id :| SaysSo(h, id, t, op, subject, target);
    assert ActiveFactsUnique(h) by { AppliedKeepsInv(g, t, op); }
    SaysSoAlone(h, id, t, op, subject, target);
  }
}
