/**
 What one operation, one consolidation and one forget do to the rows of the memory graph, field
 by field (memory/service.py).
 */
module MemoryEffects {
  import opened Options
  import opened MemoryGraph

  // ---------------------------------------------------------------- strengthening

  predicate Larger(r: real, a: real, b: real) { a <= r && b <= r && (r == a || r == b) }

  predicate LargerInt(r: int, a: int, b: int) { a <= r && b <= r && (r == a || r == b) }

  /** Fact `id` has the larger confidence and importance of what it had and what is given; the
      rest of it and every other fact, entity and episode stay as they are. */
  predicate OnlyStrengthens(g: Graph, h: Graph, id: Id, op: Operation) {
    && h.facts.Keys == g.facts.Keys && id in g.facts
    && Larger(h.facts[id].confidence, g.facts[id].confidence, op.confidence)
    && LargerInt(h.facts[id].importance, g.facts[id].importance, op.importance)
    && h.facts[id] == g.facts[id].(confidence := h.facts[id].confidence, importance := h.facts[id].importance)
    && (forall other | other in g.facts && other != id :: h.facts[other] == g.facts[other])
    && h.entities == g.entities && h.episodes == g.episodes && h.next == g.next
  }

  /** One evidence row for the fact and the episode: the one there was, else a new one from
      message `source`; no other evidence changes. */
  predicate OnlyEvidences(g: Graph, h: Graph, id: Id, t: Turn, op: Operation, source: Id) {
    && h.evidence.Keys == g.evidence.Keys + {(id, t.episode)}
    && (forall k | k in g.evidence :: h.evidence[k] == g.evidence[k])
    && ((id, t.episode) !in g.evidence ==>
          h.evidence[(id, t.episode)].source == source && h.evidence[(id, t.episode)].basis == op.basis)
  }

  /** The message that the evidence of an operation quotes. */
  function Quoted(t: Turn, op: Operation): Id {
    match op.basis
    case UserStated => t.trigger
    case AssistantActionConfirmed => t.response
  }

  /** The fact an operation names counts only when it is the user's own, is active or was not yet
      superseded at the time, and has not run out. */
  lemma ExistingIsOwnAndCurrent(g: Graph, t: Turn, op: Operation, id: Id)
    ensures Existing(g, t, op) == Some(id) <==>
      && op.existing == Some(id) && id in g.facts && g.facts[id].user == t.user
      && (g.facts[id].validUntil.Some? ==> t.now < g.facts[id].validUntil.value)
      && (g.facts[id].status == Superseded ==> g.facts[id].validUntil.Some?)
  {
  }

  /** Reinforcing a fact raises it to what is given, never lowers it, and adds this episode as
      evidence; without such a fact it does nothing. */
  lemma ReinforcingStrengthens(g: Graph, t: Turn, op: Operation)
    requires op.verb == Reinforce
    ensures Existing(g, t, op).None? ==> Applied(g, t, op) == g
    ensures Existing(g, t, op).Some? ==>
      var id, h := Existing(g, t, op).value, Applied(g, t, op);
      OnlyStrengthens(g, h, id, op) && OnlyEvidences(g, h, id, t, op, Quoted(t, op))
  {
  }

  /** An active fact of the user that relates the same subject and object in the same way. */
  predicate SaysIt(f: Fact, t: Turn, op: Operation, subject: Id, target: Target) {
    f.status == Active && f.user == t.user && f.subject == subject && f.relation == op.relation && f.target == target
  }

  /** Of such facts, and of entities under one user, type and key, there is at most one. */
  lemma NoTwoAlike(g: Graph, i: Id, j: Id)
    requires Inv(g)
    ensures i in g.facts && j in g.facts && i != j ==>
      !(g.facts[i].status == g.facts[j].status == Active
        && g.facts[i].user == g.facts[j].user && g.facts[i].subject == g.facts[j].subject
        && g.facts[i].relation == g.facts[j].relation && g.facts[i].target == g.facts[j].target)
    ensures i in g.entities && j in g.entities && i != j ==>
      !(g.entities[i].user == g.entities[j].user
        && g.entities[i].kind == g.entities[j].kind && g.entities[i].key == g.entities[j].key)
  {
    if i in g.facts && j in g.facts { assert i == j || !SameActive(g, i, j); }
    assert i == j || !SameEntity(g, i, j);
  }

  /** Saying again what an active fact says does the same to that fact, with the user's message
      as evidence. */
  lemma ConfirmingStrengthens(g: Graph, t: Turn, op: Operation, duplicate: Id)
    requires Inv(g) && op.verb != Reinforce
    requires var (g1, subject, target) := ResolvedBoth(g, t, op);
      duplicate in g1.facts && SaysIt(g1.facts[duplicate], t, op, subject, target)
    ensures var g1, h := ResolvedBoth(g, t, op).0, Applied(g, t, op);
      OnlyStrengthens(g1, h, duplicate, op) && OnlyEvidences(g1, h, duplicate, t, op, t.trigger)
  {
    ResolvedBothKeeps(g, t, op);
    var (g1, subject, target) := ResolvedBoth(g, t, op);
    assert ActiveSame(g1, duplicate, t.user, subject, op.relation, target);
    var found := FindDuplicate(g1, t.user, subject, op.relation, target).value;
    assert SameActive(g1, found, duplicate);
  }

  // ---------------------------------------------------------------- new facts

  /** The row of a new fact, by what was said and when. */
  predicate SaysWhatWasSaid(f: Fact, t: Turn, op: Operation, subject: Id, target: Target) {
    && f.user == t.user && f.subject == subject && f.relation == op.relation && f.target == target
    && f.statement == op.statement && f.confidence == op.confidence && f.importance == op.importance
    && f.status == Active && f.supersededBy.None? && f.validUntil == op.validUntil
    && f.validFrom == (if op.validFrom.Some? then op.validFrom.value else t.occurredAt)
  }

  /** Superseded by fact `heir` as from the later of the new fact's start and the conversation. */
  predicate RetiredFor(before: Fact, after: Fact, heir: Id, t: Turn, op: Operation) {
    && after.status == Superseded && after.supersededBy == Some(heir) && after.validUntil.Some?
    && t.occurredAt <= after.validUntil.value
    && (op.validFrom.Some? ==> op.validFrom.value <= after.validUntil.value)
    && (after.validUntil.value == t.occurredAt || Some(after.validUntil.value) == op.validFrom)
    && after == before.(status := after.status, supersededBy := after.supersededBy, validUntil := after.validUntil)
  }

  /** Graph `h` has one fact more than `g`, the one the operation states; no other fact changes but
      the one it supersedes. */
  predicate OnlyInserts(g: Graph, h: Graph, t: Turn, op: Operation, prior: Option<Id>, subject: Id, target: Target) {
    && g.next !in g.facts && h.facts.Keys == g.facts.Keys + {g.next} && h.next == g.next + 1
    && SaysWhatWasSaid(h.facts[g.next], t, op, subject, target)
    && (forall other | other in g.facts :: KeptOrRetired(g, h, t, op, prior, other))
    && h.entities == g.entities && h.episodes == g.episodes
  }

  predicate KeptOrRetired(g: Graph, h: Graph, t: Turn, op: Operation, prior: Option<Id>, other: Id) {
    && other in g.facts && other in h.facts
    && (if op.verb == Supersede && prior == Some(other)
       then RetiredFor(g.facts[other], h.facts[other], g.next, t, op) else h.facts[other] == g.facts[other])
  }

  lemma InsertedOnlyInserts(g: Graph, t: Turn, op: Operation, prior: Option<Id>, subject: Id, target: Target)
    requires g.next !in g.facts && (prior.Some? ==> prior.value in g.facts)
    ensures OnlyInserts(g, Inserted(g, t, op, prior, subject, target), t, op, prior, subject, target)
  {
    var h, id := Inserted(g, t, op, prior, subject, target), g.next;
    var added := g.(facts := g.facts[id := NewFact(t, op, subject, target)], next := id + 1);
    if op.verb == Supersede && prior.Some? {
      assert h.facts == Retired(added, prior.value, id, EndOfOld(t, op)).facts;
      RetiredIsRetiredFor(added.facts[prior.value], id, t, op);
    } else {
      assert h.facts == added.facts;
    }
  }

  lemma RetiredIsRetiredFor(f: Fact, heir: Id, t: Turn, op: Operation)
    ensures RetiredFor(f, f.(status := Superseded, validUntil := Some(EndOfOld(t, op)), supersededBy := Some(heir)),
      heir, t, op)
  {
  }

  lemma InsertedOnlyEvidences(g: Graph, t: Turn, op: Operation, prior: Option<Id>, subject: Id, target: Target)
    requires g.next !in g.facts && (prior.Some? ==> prior.value in g.facts)
    ensures OnlyEvidences(g, Inserted(g, t, op, prior, subject, target), g.next, t, op, Quoted(t, op))
  {
  }

  /** An add or a supersede that finds nothing said yet inserts exactly one fact. */
  lemma InsertingAddsOneFact(g: Graph, t: Turn, op: Operation)
    requires Inv(g) && op.verb != Reinforce
    requires var (g1, subject, target) := ResolvedBoth(g, t, op);
      forall id | id in g1.facts :: !SaysIt(g1.facts[id], t, op, subject, target)
    ensures var (g1, subject, target) := ResolvedBoth(g, t, op);
      && OnlyInserts(g1, Applied(g, t, op), t, op, Existing(g, t, op), subject, target)
      && OnlyEvidences(g1, Applied(g, t, op), g1.next, t, op, Quoted(t, op))
  {
    ResolvedBothKeeps(g, t, op);
    var (g1, subject, target) := ResolvedBoth(g, t, op);
    assert FindDuplicate(g1, t.user, subject, op.relation, target).None?;
    InsertedOnlyInserts(g1, t, op, Existing(g1, t, op), subject, target);
    InsertedOnlyEvidences(g1, t, op, Existing(g1, t, op), subject, target);
  }

  // ---------------------------------------------------------------- entities

  /** The one entity of the user under the type and key of the mention: found, with the name added
      to its aliases unless it is known already, or created under that name. */
  lemma ResolvingFindsOrCreates(g: Graph, user: User, m: Mention)
    requires EntitiesUnique(g) && IdsBelowNext(g)
    ensures var (h, id) := Resolved(g, user, m);
      && id in h.entities && h.entities[id].user == user && h.entities[id].kind == m.kind && h.entities[id].key == m.key
      && (m.name == h.entities[id].name || m.name in h.entities[id].aliases)
      && h.entities.Keys == g.entities.Keys + {id}
      && (forall other | other in g.entities && other != id :: h.entities[other] == g.entities[other])
      && h.facts == g.facts && h.evidence == g.evidence && h.episodes == g.episodes
    ensures var (h, id) := Resolved(g, user, m);
      if id in g.entities then
        && h.entities[id] == g.entities[id].(aliases := h.entities[id].aliases) && h.next == g.next
        && h.entities[id].aliases == g.entities[id].aliases
             + (if m.name == g.entities[id].name || m.name in g.entities[id].aliases then [] else [m.name])
      else
        && (forall e | e in g.entities && g.entities[e].user == user && g.entities[e].kind == m.kind ::
              g.entities[e].key != m.key)
        && h.entities[id].name == m.name && h.entities[id].aliases == [] && id == g.next && h.next == g.next + 1
  {
    var (h, id) := Resolved(g, user, m);
    if FindEntity(g, user, m).None? {
      assert id !in g.entities;
      forall e | e in g.entities && g.entities[e].user == user && g.entities[e].kind == m.kind
        ensures g.entities[e].key != m.key
      {
        assert !IsEntity(g, e, user, m);
      }
    }
  }

  /** Subject first; the object is an entity exactly when the operation says so and names one. */
  lemma ResolvingBothDoesEach(g: Graph, t: Turn, op: Operation)
    ensures var (g1, subject) := Resolved(g, t.user, op.subject);
      ResolvedBoth(g, t, op) ==
        if op.objectIsEntity && op.target.Some? then
          var (g2, o) := Resolved(g1, t.user, op.target.value); (g2, subject, Linked(o))
        else (g1, subject, Plain(op.objectValue))
  {
  }

  // ---------------------------------------------------------------- consolidations

  /** There is something to store, and the job is not stored yet. */
  predicate Stores(g: Graph, job: Job, c: Consolidation) {
    && (c.operations != [] || (c.storeEpisode && c.summary != ""))
    && forall e | e in g.episodes :: g.episodes[e].job != job.id
  }

  /** A consolidation that says something, of a job not stored yet, adds one episode, which every
      operation then quotes; any other changes nothing. */
  lemma PersistingAddsOneEpisode(g: Graph, job: Job, c: Consolidation)
    requires Inv(g)
    ensures !Stores(g, job, c) ==> Persisted(g, job, c) == g
    ensures Stores(g, job, c) ==>
      var h := Persisted(g, job, c);
      && h.episodes.Keys == g.episodes.Keys + {g.next} && g.next !in g.episodes
      && (forall e | e in g.episodes :: h.episodes[e] == g.episodes[e])
      && EpisodeOf(h.episodes[g.next], job, c)
  {
    if Stores(g, job, c) {
      WithEpisodeKeepsInv(g, job, c);
      EpisodesStay(WithEpisode(g, job, c), TurnOf(g, job), c.operations);
    }
  }

  /** Retrievable exactly when the episode was to be stored; its summary is the given one, else
      the statement of the first operation. */
  predicate EpisodeOf(e: Episode, job: Job, c: Consolidation) {
    && e.user == job.user && e.job == job.id && e.occurredAt == job.occurredAt && e.retrievable == c.storeEpisode
    && (c.summary != "" ==> e.summary == c.summary)
    && (c.summary == "" && c.operations != [] ==> e.summary == c.operations[0].statement)
  }

  lemma EpisodesStayOnce(g: Graph, t: Turn, op: Operation)
    ensures Applied(g, t, op).episodes == g.episodes
  {
    if op.verb == Reinforce {
      assert Reinforced(g, t, op).episodes == g.episodes;
    } else {
      var (g1, subject, target) := ResolvedBoth(g, t, op);
      assert g1.episodes == g.episodes;
    }
  }

  lemma {:induction false} EpisodesStay(g: Graph, t: Turn, ops: seq<Operation>)
    ensures AppliedAll(g, t, ops).episodes == g.episodes
  {
    if ops != [] {
      EpisodesStay(g, t, ops[..|ops| - 1]);
      EpisodesStayOnce(AppliedAll(g, t, ops[..|ops| - 1]), t, ops[|ops| - 1]);
    }
  }

  /** Its operations are then applied in the turn of the job and that episode. */
  lemma PersistingIsOneTurn(g: Graph, job: Job, c: Consolidation)
    requires Stores(g, job, c)
    ensures var h := Persisted(g, job, c);
      h == AppliedAll(g.(episodes := h.episodes, next := g.next + 1),
                      Turn(job.user, g.next, job.trigger, job.response, job.occurredAt, job.now), c.operations)
  {
    EpisodesStay(WithEpisode(g, job, c), TurnOf(g, job), c.operations);
  }

  /** First to last. */
  lemma OperationsApplyInOrder(g: Graph, t: Turn, ops: seq<Operation>, op: Operation)
    ensures AppliedAll(g, t, []) == g && AppliedAll(g, t, ops + [op]) == Applied(AppliedAll(g, t, ops), t, op)
  {
    assert (ops + [op])[..|ops|] == ops;
  }

  // ---------------------------------------------------------------- forgetting

  predicate IsForgotten(g: Graph, user: User, ids: set<Id>, id: Id) {
    id in ids && id in g.facts && g.facts[id].user == user
  }

  predicate Witnessed(g: Graph, user: User, ids: set<Id>, e: Id) {
    exists id :: id in g.facts && IsForgotten(g, user, ids, id) && (id, e) in g.evidence
  }

  predicate StillMentioned(g: Graph, h: Graph, entity: Id) {
    exists id :: id in g.facts && id in h.facts
      && (h.facts[id].subject == entity || h.facts[id].target == Linked(entity))
  }

  /** Exactly the chosen facts of the user go, and links to them are cleared. */
  lemma ForgettingFacts(g: Graph, user: User, ids: set<Id>, id: Id)
    ensures var h := Forgotten(g, user, ids);
      && (id in h.facts <==> id in g.facts && !IsForgotten(g, user, ids, id))
      && (id in h.facts ==>
            h.facts[id] ==
              if g.facts[id].supersededBy.Some? && IsForgotten(g, user, ids, g.facts[id].supersededBy.value)
              then g.facts[id].(supersededBy := None) else g.facts[id])
  {
    assert IsForgotten(g, user, ids, id) <==> id in Chosen(g, user, ids);
    if Chosen(g, user, ids) == {} && id in g.facts && g.facts[id].supersededBy.Some? {
      assert g.facts[id].supersededBy.value !in Chosen(g, user, ids);
    }
  }

  /** Exactly their evidence goes with them. */
  lemma ForgettingEvidence(g: Graph, user: User, ids: set<Id>, fact: Id, episode: Id)
    ensures var h, k := Forgotten(g, user, ids), (fact, episode);
      && (k in h.evidence <==> k in g.evidence && !IsForgotten(g, user, ids, fact))
      && (k in h.evidence ==> h.evidence[k] == g.evidence[k])
  {
    assert IsForgotten(g, user, ids, fact) <==> fact in Chosen(g, user, ids);
  }

  /** Exactly the episodes that witnessed one of them are blanked; none is deleted. */
  lemma ForgettingEpisodes(g: Graph, user: User, ids: set<Id>, e: Id)
    ensures var h := Forgotten(g, user, ids);
      && (e in h.episodes <==> e in g.episodes)
      && (e in g.episodes ==>
            h.episodes[e] ==
              if Witnessed(g, user, ids, e)
              then g.episodes[e].(summary := "[forgotten by user]", retrievable := false) else g.episodes[e])
  {
    var gone := Chosen(g, user, ids);
    assert e in Tainted(g, gone) <==> Witnessed(g, user, ids, e) by {
      if e in Tainted(g, gone) {
        var k :| k in g.evidence && k.0 in gone && k.1 == e;
        assert k == (k.0, e) && IsForgotten(g, user, ids, k.0);
      }
      if Witnessed(g, user, ids, e) {
        var id: Id :| id in g.facts && IsForgotten(g, user, ids, id) && (id, e) in g.evidence;
        assert id in gone && (id, e).0 in gone && (id, e).1 == e;
      }
    }
    if Witnessed(g, user, ids, e) {
      var id: Id :| id in g.facts && IsForgotten(g, user, ids, id) && (id, e) in g.evidence;
      assert id in gone;
    }
  }

  /** When something was forgotten, exactly the user's entities that no remaining fact mentions
      go; otherwise nothing does. */
  lemma ForgettingEntities(g: Graph, user: User, ids: set<Id>, entity: Id)
    ensures var h := Forgotten(g, user, ids);
      && (entity in h.entities ==> entity in g.entities)
      && (entity in g.entities ==>
            (entity in h.entities <==>
              || (forall id :: !IsForgotten(g, user, ids, id))
              || g.entities[entity].user != user || StillMentioned(g, h, entity)))
      && (entity in h.entities ==> h.entities[entity] == g.entities[entity])
      && h.next == g.next
  {
    var gone, h := Chosen(g, user, ids), Forgotten(g, user, ids);
    if gone == {} {
      forall id ensures !IsForgotten(g, user, ids, id) { assert id !in gone; }
    } else {
      var id :| id in gone;
      assert IsForgotten(g, user, ids, id);
      assert forall f | f in h.facts :: f in g.facts;
      var g2 := WithoutFacts(g, gone);
      assert h.facts == g2.facts;
      if entity in g.entities {
        if f :| f in h.facts && Mentions(h.facts[f], entity) { assert StillMentioned(g, h, entity); }
        if StillMentioned(g, h, entity) {
          var f :| f in g.facts && f in h.facts
            && (h.facts[f].subject == entity || h.facts[f].target == Linked(entity));
          assert Mentions(h.facts[f], entity);
        }
      }
    }
  }
}
