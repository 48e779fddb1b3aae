/**
 The temporal memory graph (memory/service.py): facts about entities, the evidence that ties
 them to conversation episodes, and the operations that consolidate and forget them.
 One row id is drawn for every inserted row, so a larger id is a newer row.
 */
module MemoryGraph {
  import opened Options

  type Id = nat
  type User = nat

  datatype Entity = Entity(user: User, kind: string, key: string, name: string, aliases: seq<string>)

  datatype FactStatus = Active | Superseded

  datatype Target = Linked(entity: Id) | Plain(value: Option<string>)

  datatype Fact = Fact(
    user: User, subject: Id, relation: string, target: Target, statement: string,
    confidence: real, importance: int, status: FactStatus,
    validFrom: int, validUntil: Option<int>, supersededBy: Option<Id>)

  datatype Basis = UserStated | AssistantActionConfirmed

  datatype Evidence = Evidence(source: Id, basis: Basis)

  datatype Episode = Episode(user: User, job: Id, summary: string, retrievable: bool, occurredAt: int)

  datatype Graph = Graph(
    facts: map<Id, Fact>,
    entities: map<Id, Entity>,
    evidence: map<(Id, Id), Evidence>,   // keyed by fact and episode
    episodes: map<Id, Episode>,
    next: Id)

  const Empty := Graph(map[], map[], map[], map[], 0)

  /** A name with its type; `key` is the canonical form under which the entity is stored. */
  datatype Mention = Mention(name: string, kind: string, key: string)

  datatype Verb = Add | Reinforce | Supersede

  datatype Operation = Operation(
    verb: Verb, existing: Option<Id>, subject: Mention, relation: string,
    objectIsEntity: bool, target: Option<Mention>, objectValue: Option<string>,
    statement: string, confidence: real, importance: int,
    validFrom: Option<int>, validUntil: Option<int>, basis: Basis)

  /** The turn an operation was extracted from. */
  datatype Turn = Turn(user: User, episode: Id, trigger: Id, response: Id, occurredAt: int, now: int)

  const FORGOTTEN := "[forgotten by user]"

  // ---------------------------------------------------------------- entities

  predicate IsEntity(g: Graph, id: Id, user: User, m: Mention) {
    id in g.entities && g.entities[id].user == user && g.entities[id].kind == m.kind && g.entities[id].key == m.key
  }

  ghost function FindEntity(g: Graph, user: User, m: Mention): Option<Id> {
    if exists id :: IsEntity(g, id, user, m) then Some(var id :| IsEntity(g, id, user, m); id) else None
  }

  function WithAlias(e: Entity, name: string): Entity {
    if name != e.name && name !in e.aliases then e.(aliases := e.aliases + [name]) else e
  }

  ghost function Resolved(g: Graph, user: User, m: Mention): (r: (Graph, Id)) {
    match FindEntity(g, user, m)
    case Some(id) => (g.(entities := g.entities[id := WithAlias(g.entities[id], m.name)]), id)
    case None =>
      (g.(entities := g.entities[g.next := Entity(user, m.kind, m.key, m.name, [])], next := g.next + 1), g.next)
  }

  // ---------------------------------------------------------------- facts

  /** Still worth knowing at `now`: active, or superseded by something not yet in force. */
  predicate Relevant(f: Fact, now: int) {
    && (f.status == Active || (f.validUntil.Some? && f.validUntil.value > now))
    && (f.validUntil.Some? ==> f.validUntil.value > now)
  }

  function Existing(g: Graph, t: Turn, op: Operation): Option<Id> {
    if op.existing.Some? && op.existing.value in g.facts
       && g.facts[op.existing.value].user == t.user && Relevant(g.facts[op.existing.value], t.now)
    then op.existing else None
  }

  predicate Same(g: Graph, id: Id, user: User, subject: Id, relation: string, target: Target) {
    && id in g.facts
    && g.facts[id].user == user && g.facts[id].subject == subject
    && g.facts[id].relation == relation && g.facts[id].target == target
  }

  predicate ActiveSame(g: Graph, id: Id, user: User, subject: Id, relation: string, target: Target) {
    Same(g, id, user, subject, relation, target) && g.facts[id].status == Active
  }

  ghost function FindDuplicate(g: Graph, user: User, subject: Id, relation: string, target: Target): Option<Id> {
    if exists id :: ActiveSame(g, id, user, subject, relation, target)
    then Some(var id :| ActiveSame(g, id, user, subject, relation, target); id) else None
  }

  function Max(a: int, b: int): int { if a < b then b else a }

  function MaxReal(a: real, b: real): real { if a < b then b else a }

  function Strengthened(g: Graph, id: Id, op: Operation): Graph
    requires id in g.facts
  {
    var f := g.facts[id];
    g.(facts := g.facts[id :=
      f.(confidence := MaxReal(f.confidence, op.confidence), importance := Max(f.importance, op.importance))])
  }

  function Evidenced(g: Graph, fact: Id, episode: Id, e: Evidence): Graph {
    if (fact, episode) in g.evidence then g else g.(evidence := g.evidence[(fact, episode) := e])
  }

  function SourceOf(t: Turn, op: Operation): Evidence {
    Evidence(if op.basis == UserStated then t.trigger else t.response, op.basis)
  }

  function NewFact(t: Turn, op: Operation, subject: Id, target: Target): Fact {
    Fact(t.user, subject, op.relation, target, op.statement, op.confidence, op.importance, Active,
         if op.validFrom.Some? then op.validFrom.value else t.occurredAt, op.validUntil, None)
  }

  function EndOfOld(t: Turn, op: Operation): int {
    if op.validFrom.Some? && op.validFrom.value > t.occurredAt then op.validFrom.value else t.occurredAt
  }

  function Retired(g: Graph, prior: Id, heir: Id, until: int): Graph
    requires prior in g.facts
  {
    g.(facts := g.facts[prior :=
      g.facts[prior].(status := Superseded, validUntil := Some(until), supersededBy := Some(heir))])
  }

  predicate LinksObject(op: Operation) {
    op.objectIsEntity && op.target.Some?
  }

  /** Subject and object of an operation, resolved in that order. */
  ghost function ResolvedBoth(g: Graph, t: Turn, op: Operation): (Graph, Id, Target) {
    var (g1, subject) := Resolved(g, t.user, op.subject);
    if LinksObject(op) then
      var (g2, o) := Resolved(g1, t.user, op.target.value);
      (g2, subject, Linked(o))
    else (g1, subject, Plain(op.objectValue))
  }

  function Inserted(g: Graph, t: Turn, op: Operation, existing: Option<Id>, subject: Id, target: Target): Graph
    requires existing.Some? ==> existing.value in g.facts
  {
    var id := g.next;
    var g1 := g.(facts := g.facts[id := NewFact(t, op, subject, target)], next := id + 1);
    var g2 := if op.verb == Supersede && existing.Some? then Retired(g1, existing.value, id, EndOfOld(t, op)) else g1;
    Evidenced(g2, id, t.episode, SourceOf(t, op))
  }

  function Reinforced(g: Graph, t: Turn, op: Operation): Graph {
    match Existing(g, t, op)
    case None => g
    case Some(id) => Evidenced(Strengthened(g, id, op), id, t.episode, SourceOf(t, op))
  }

  function Confirmed(g: Graph, t: Turn, op: Operation, duplicate: Id): Graph
    requires duplicate in g.facts
  {
    Evidenced(Strengthened(g, duplicate, op), duplicate, t.episode, Evidence(t.trigger, op.basis))
  }

  /** Adding and superseding: an active duplicate is only strengthened. */
  ghost function Recorded(g: Graph, t: Turn, op: Operation): Graph {
    var (g1, subject, target) := ResolvedBoth(g, t, op);
    match FindDuplicate(g1, t.user, subject, op.relation, target)
    case Some(d) => Confirmed(g1, t, op, d)
    case None => Inserted(g1, t, op, Existing(g1, t, op), subject, target)
  }

  ghost function Applied(g: Graph, t: Turn, op: Operation): Graph {
    if op.verb == Reinforce then Reinforced(g, t, op) else Recorded(g, t, op)
  }

  ghost function AppliedAll(g: Graph, t: Turn, ops: seq<Operation>): Graph {
    if ops == [] then g else Applied(AppliedAll(g, t, ops[..|ops| - 1]), t, ops[|ops| - 1])
  }

  // ---------------------------------------------------------------- consolidation jobs

  datatype Job = Job(id: Id, user: User, trigger: Id, response: Id, occurredAt: int, now: int)

  datatype Consolidation = Consolidation(storeEpisode: bool, summary: string, operations: seq<Operation>)

  predicate SaysNothing(c: Consolidation) {
    c.operations == [] && !(c.storeEpisode && c.summary != "")
  }

  predicate JobDone(g: Graph, job: Id) {
    exists e :: e in g.episodes && g.episodes[e].job == job
  }

  function SummaryOf(c: Consolidation): string {
    if c.summary != "" then c.summary else if c.operations != [] then c.operations[0].statement else ""
  }

  function WithEpisode(g: Graph, job: Job, c: Consolidation): Graph {
    g.(episodes := g.episodes[g.next := Episode(job.user, job.id, SummaryOf(c), c.storeEpisode, job.occurredAt)],
       next := g.next + 1)
  }

  function TurnOf(g: Graph, job: Job): Turn {
    Turn(job.user, g.next, job.trigger, job.response, job.occurredAt, job.now)
  }

  ghost function Persisted(g: Graph, job: Job, c: Consolidation): Graph {
    if SaysNothing(c) || JobDone(g, job.id) then g
    else AppliedAll(WithEpisode(g, job, c), TurnOf(g, job), c.operations)
  }

  // ---------------------------------------------------------------- forgetting

  function Chosen(g: Graph, user: User, ids: set<Id>): set<Id> {
    set id | id in ids && id in g.facts && g.facts[id].user == user
  }

  function Tainted(g: Graph, gone: set<Id>): set<Id> {
    set k | k in g.evidence && k.0 in gone :: k.1
  }

  function Hidden(e: Episode): Episode {
    e.(summary := FORGOTTEN, retrievable := false)
  }

  /** Deleting facts takes their evidence with it and clears links that pointed at them. */
  function WithoutFacts(g: Graph, gone: set<Id>): Graph {
    g.(facts := map id | id in g.facts && id !in gone ::
         (if g.facts[id].supersededBy.Some? && g.facts[id].supersededBy.value in gone
          then g.facts[id].(supersededBy := None) else g.facts[id]),
       evidence := map k | k in g.evidence && k.0 !in gone :: g.evidence[k])
  }

  predicate Mentions(f: Fact, entity: Id) {
    f.subject == entity || f.target == Linked(entity)
  }

  predicate Referenced(g: Graph, entity: Id) {
    exists id :: id in g.facts && Mentions(g.facts[id], entity)
  }

  function WithoutOrphans(g: Graph, user: User): Graph {
    g.(entities := map id | id in g.entities && (g.entities[id].user != user || Referenced(g, id)) :: g.entities[id])
  }

  function Forgotten(g: Graph, user: User, ids: set<Id>): Graph {
    var gone := Chosen(g, user, ids);
    if gone == {} then g
    else
      var tainted := Tainted(g, gone);
      var g1 := g.(episodes := map e | e in g.episodes ::
        if e in tainted then Hidden(g.episodes[e]) else g.episodes[e]);
      WithoutOrphans(WithoutFacts(g1, gone), user)
  }

  // ---------------------------------------------------------------- the invariant

  ghost predicate IdsBelowNext(g: Graph) {
    && (forall id | id in g.facts :: id < g.next)
    && (forall id | id in g.entities :: id < g.next)
    && (forall id | id in g.episodes :: id < g.next)
  }

  predicate LinkLive(g: Graph, f: Fact) {
    && f.subject in g.entities && g.entities[f.subject].user == f.user
    && (f.target.Linked? ==> f.target.entity in g.entities && g.entities[f.target.entity].user == f.user)
  }

  ghost predicate LinksLive(g: Graph) {
    forall id {:trigger LinkLive(g, g.facts[id])} | id in g.facts :: LinkLive(g, g.facts[id])
  }

  predicate SameEntity(g: Graph, i: Id, j: Id) {
    && i in g.entities && j in g.entities && g.entities[i].user == g.entities[j].user
    && g.entities[i].kind == g.entities[j].kind && g.entities[i].key == g.entities[j].key
  }

  /** One entity per user, type and canonical key. */
  ghost predicate EntitiesUnique(g: Graph) {
    forall i, j | SameEntity(g, i, j) :: i == j
  }

  predicate SameActive(g: Graph, i: Id, j: Id) {
    j in g.facts && g.facts[j].status == Active
    && ActiveSame(g, i, g.facts[j].user, g.facts[j].subject, g.facts[j].relation, g.facts[j].target)
  }

  /** At most one active fact per user, subject, predicate and object. */
  ghost predicate ActiveFactsUnique(g: Graph) {
    forall i, j | SameActive(g, i, j) :: i == j
  }

  ghost predicate EvidenceLive(g: Graph) {
    forall k | k in g.evidence :: k.0 in g.facts && k.1 in g.episodes
  }

  /** A replacement is newer, of the same user, and starts no later than the old fact ends. */
  predicate Replaces(g: Graph, prior: Id, heir: Id)
    requires prior in g.facts
  {
    && prior < heir && heir in g.facts && g.facts[heir].user == g.facts[prior].user
    && g.facts[prior].status == Superseded
    && g.facts[prior].validUntil.Some? && g.facts[heir].validFrom <= g.facts[prior].validUntil.value
  }

  predicate HeirOk(g: Graph, id: Id)
    requires id in g.facts
  {
    g.facts[id].supersededBy.Some? ==> Replaces(g, id, g.facts[id].supersededBy.value)
  }

  ghost predicate SupersessionOk(g: Graph) {
    forall id {:trigger HeirOk(g, id)} | id in g.facts :: HeirOk(g, id)
  }

  predicate SameJob(g: Graph, i: Id, j: Id) {
    i in g.episodes && j in g.episodes && g.episodes[i].job == g.episodes[j].job
  }

  ghost predicate JobsUnique(g: Graph) {
    forall i, j | SameJob(g, i, j) :: i == j
  }

  predicate HasEvidence(g: Graph, fact: Id) {
    exists k :: k in g.evidence && k.0 == fact
  }

  ghost predicate Consistent(g: Graph) {
    && IdsBelowNext(g) && LinksLive(g) && EntitiesUnique(g) && ActiveFactsUnique(g)
    && EvidenceLive(g) && SupersessionOk(g) && JobsUnique(g)
  }

  /** Entities still to be referenced and facts still to be evidenced. */
  ghost predicate Pending(g: Graph, entities: set<Id>, facts: set<Id>) {
    && (forall e {:trigger Referenced(g, e)} | e in g.entities && e !in entities :: Referenced(g, e))
    && (forall f {:trigger HasEvidence(g, f)} | f in g.facts && f !in facts :: HasEvidence(g, f))
  }

  ghost predicate Inv(g: Graph) { Consistent(g) && Pending(g, {}, {}) }

  // ---------------------------------------------------------------- rows only ever evolve

  /** What no consolidation changes in a fact, and what it may only raise. */
  predicate FactEvolves(a: Fact, b: Fact) {
    && b.user == a.user && b.subject == a.subject && b.relation == a.relation && b.target == a.target
    && b.statement == a.statement && b.validFrom == a.validFrom
    && a.confidence <= b.confidence && a.importance <= b.importance
    && (a.status == Superseded ==> b.status == Superseded)
  }

  predicate EntityEvolves(a: Entity, b: Entity) {
    b.user == a.user && b.kind == a.kind && b.key == a.key && b.name == a.name && a.aliases <= b.aliases
  }

  predicate FactKept(g: Graph, h: Graph, id: Id)
    requires id in g.facts
  {
    id in h.facts && FactEvolves(g.facts[id], h.facts[id])
  }

  predicate EntityKept(g: Graph, h: Graph, id: Id)
    requires id in g.entities
  {
    id in h.entities && EntityEvolves(g.entities[id], h.entities[id])
  }

  predicate EpisodeKept(g: Graph, h: Graph, id: Id)
    requires id in g.episodes
  {
    id in h.episodes && h.episodes[id] == g.episodes[id]
  }

  ghost predicate NewRowsAreNewer(g: Graph, h: Graph) {
    && (forall id | id in h.facts && id !in g.facts :: g.next <= id)
    && (forall id | id in h.episodes && id !in g.episodes :: g.next <= id)
  }

  ghost predicate Evolves(g: Graph, h: Graph) {
    && g.next <= h.next
    && (forall id {:trigger FactKept(g, h, id)} | id in g.facts :: FactKept(g, h, id))
    && (forall id {:trigger EntityKept(g, h, id)} | id in g.entities :: EntityKept(g, h, id))
    && (forall id {:trigger EpisodeKept(g, h, id)} | id in g.episodes :: EpisodeKept(g, h, id))
    && (forall k | k in g.evidence :: k in h.evidence)
    && NewRowsAreNewer(g, h)
  }

  lemma EvolvesTransitive(g: Graph, h: Graph, k: Graph)
    requires Evolves(g, h) && Evolves(h, k)
    ensures Evolves(g, k)
  {
    forall id | id in g.facts ensures FactKept(g, k, id) { assert FactKept(g, h, id) && FactKept(h, k, id); }
    forall id | id in g.entities ensures EntityKept(g, k, id) { assert EntityKept(g, h, id) && EntityKept(h, k, id); }
    forall id | id in g.episodes
      ensures EpisodeKept(g, k, id)
    {
      assert EpisodeKept(g, h, id) && EpisodeKept(h, k, id);
    }
  }

  /** Nothing that was referenced or evidenced stops being so. */
  lemma EvolvesKeepsPending(g: Graph, h: Graph, entities: set<Id>, facts: set<Id>)
    requires Evolves(g, h) && Pending(g, entities, facts)
    ensures Pending(h, entities + (h.entities.Keys - g.entities.Keys), facts + (h.facts.Keys - g.facts.Keys))
  {
    forall e | e in g.entities && e !in entities ensures Referenced(h, e) {
      assert Referenced(g, e);
      var f :| f in g.facts && Mentions(g.facts[f], e);
      assert FactKept(g, h, f) && Mentions(h.facts[f], e);
    }
    forall f | f in g.facts && f !in facts ensures HasEvidence(h, f) {
      assert HasEvidence(g, f);
      var k :| k in g.evidence && k.0 == f;
      assert k in h.evidence;
    }
  }

  lemma EvolvesKeepsLinks(g: Graph, h: Graph)
    requires Evolves(g, h) && LinksLive(g)
    ensures forall id {:trigger LinkLive(h, h.facts[id])} | id in g.facts :: id in h.facts && LinkLive(h, h.facts[id])
  {
    forall id | id in g.facts ensures id in h.facts && LinkLive(h, h.facts[id]) {
      var f := g.facts[id];
      assert LinkLive(g, f) && FactKept(g, h, id) && EntityKept(g, h, f.subject);
      assert f.target.Linked? ==> EntityKept(g, h, f.target.entity);
    }
  }

  /** Without new facts, no two active facts become the same. */
  lemma EvolvesKeepsUnique(g: Graph, h: Graph)
    requires Evolves(g, h) && ActiveFactsUnique(g) && h.facts.Keys == g.facts.Keys
    ensures ActiveFactsUnique(h)
  {
    forall i, j | SameActive(h, i, j) ensures i == j {
      assert FactKept(g, h, i) && FactKept(g, h, j);
      assert SameActive(g, i, j);
    }
  }

  // ---------------------------------------------------------------- every step keeps the invariant

  lemma ResolvedUnique(g: Graph, user: User, m: Mention)
    requires IdsBelowNext(g) && EntitiesUnique(g)
    ensures EntitiesUnique(Resolved(g, user, m).0)
  {
    var h := Resolved(g, user, m).0;
    forall i, j | SameEntity(h, i, j) ensures i == j {
      if i in g.entities && j in g.entities {
        assert SameEntity(g, i, j);
      } else if i in g.entities {
        assert IsEntity(g, i, user, m);
      } else if j in g.entities {
        assert IsEntity(g, j, user, m);
      }
    }
  }

  lemma ResolvedEvolves(g: Graph, user: User, m: Mention)
    requires IdsBelowNext(g)
    ensures var (h, id) := Resolved(g, user, m);
      && Evolves(g, h) && IdsBelowNext(h) && IsEntity(h, id, user, m)
      && h.facts == g.facts && h.episodes == g.episodes && h.evidence == g.evidence
      && h.entities.Keys <= g.entities.Keys + {id}
  {
  }

  lemma ResolvedKeeps(g: Graph, user: User, m: Mention, entities: set<Id>)
    requires Consistent(g) && Pending(g, entities, {})
    ensures var (h, id) := Resolved(g, user, m);
      && Consistent(h) && Pending(h, entities + {id}, {}) && Evolves(g, h) && IsEntity(h, id, user, m)
      && h.facts == g.facts && h.episodes == g.episodes && h.evidence == g.evidence
  {
    var (h, id) := Resolved(g, user, m);
    ResolvedEvolves(g, user, m);
    EvolvesKeepsPending(g, h, entities, {});
    EvolvesKeepsLinks(g, h);
    EvolvesKeepsUnique(g, h);
    ResolvedUnique(g, user, m);
    KeepsSupersession(g, h);
    KeepsJobs(g, h);
  }

  lemma KeepsSupersession(g: Graph, h: Graph)
    requires SupersessionOk(g) && h.facts == g.facts
    ensures SupersessionOk(h)
  {
    forall f | f in h.facts ensures HeirOk(h, f) {
      assert f in g.facts ==> HeirOk(g, f);
    }
  }

  lemma KeepsJobs(g: Graph, h: Graph)
    requires JobsUnique(g) && h.episodes == g.episodes
    ensures JobsUnique(h)
  {
    forall i, j | SameJob(h, i, j) ensures i == j { assert SameJob(g, i, j); }
  }

  lemma KeepsEntities(g: Graph, h: Graph)
    requires EntitiesUnique(g) && h.entities == g.entities
    ensures EntitiesUnique(h)
  {
    forall i, j | SameEntity(h, i, j) ensures i == j { assert SameEntity(g, i, j); }
  }

  lemma StrengthenedKeeps(g: Graph, id: Id, op: Operation)
    requires Inv(g) && id in g.facts
    ensures Inv(Strengthened(g, id, op)) && Evolves(g, Strengthened(g, id, op))
  {
    var h := Strengthened(g, id, op);
    assert Evolves(g, h);
    EvolvesKeepsPending(g, h, {}, {});
    EvolvesKeepsLinks(g, h);
    EvolvesKeepsUnique(g, h);
    KeepsEntities(g, h);
    KeepsJobs(g, h);
    forall f | f in h.facts ensures HeirOk(h, f) {
      assert f in g.facts ==> HeirOk(g, f);
    }
  }

  lemma EvidencedKeeps(g: Graph, fact: Id, episode: Id, e: Evidence, facts: set<Id>)
    requires Consistent(g) && Pending(g, {}, facts) && facts <= {fact} && fact in g.facts && episode in g.episodes
    ensures Inv(Evidenced(g, fact, episode, e)) && Evolves(g, Evidenced(g, fact, episode, e))
  {
    var h := Evidenced(g, fact, episode, e);
    assert Evolves(g, h);
    EvolvesKeepsPending(g, h, {}, facts);
    assert (fact, episode) in h.evidence && (fact, episode).0 == fact;
    assert HasEvidence(h, fact);
    EvolvesKeepsLinks(g, h);
    EvolvesKeepsUnique(g, h);
    KeepsEntities(g, h);
    KeepsJobs(g, h);
    KeepsSupersession(g, h);
  }

  function WithFact(g: Graph, f: Fact): Graph {
    g.(facts := g.facts[g.next := f], next := g.next + 1)
  }

  lemma WithFactUnique(g: Graph, f: Fact)
    requires IdsBelowNext(g) && ActiveFactsUnique(g)
    requires !exists id :: ActiveSame(g, id, f.user, f.subject, f.relation, f.target)
    ensures ActiveFactsUnique(WithFact(g, f))
  {
    var h := WithFact(g, f);
    forall i, j | SameActive(h, i, j) ensures i == j {
      if i in g.facts && j in g.facts {
        assert SameActive(g, i, j);
      } else if i in g.facts {
        assert ActiveSame(g, i, f.user, f.subject, f.relation, f.target);
      } else if j in g.facts {
        assert ActiveSame(g, j, f.user, f.subject, f.relation, f.target);
      }
    }
  }

  lemma WithFactKeeps(g: Graph, f: Fact, entities: set<Id>)
    requires Consistent(g) && Pending(g, entities, {}) && LinkLive(g, f) && f.supersededBy.None?
    requires !exists id :: ActiveSame(g, id, f.user, f.subject, f.relation, f.target)
    requires forall e | e in entities :: Mentions(f, e)
    ensures var h := WithFact(g, f); Consistent(h) && Pending(h, {}, {g.next}) && Evolves(g, h)
  {
    var h := WithFact(g, f);
    assert g.next !in g.facts;
    assert Evolves(g, h);
    EvolvesKeepsPending(g, h, entities, {});
    forall e | e in entities ensures Referenced(h, e) {
      assert g.next in h.facts && Mentions(h.facts[g.next], e);
    }
    EvolvesKeepsLinks(g, h);
    assert LinkLive(h, f);
    WithFactUnique(g, f);
    KeepsEntities(g, h);
    KeepsJobs(g, h);
    forall x | x in h.facts ensures HeirOk(h, x) {
      assert x in g.facts ==> HeirOk(g, x);
    }
  }

  lemma RetiredKeeps(g: Graph, prior: Id, heir: Id, until: int)
    requires Consistent(g) && Pending(g, {}, {heir}) && prior in g.facts && heir in g.facts && prior < heir
    requires g.facts[heir].user == g.facts[prior].user && g.facts[heir].validFrom <= until
    ensures var h := Retired(g, prior, heir, until); Consistent(h) && Pending(h, {}, {heir}) && Evolves(g, h)
  {
    var h := Retired(g, prior, heir, until);
    assert Evolves(g, h);
    EvolvesKeepsPending(g, h, {}, {heir});
    EvolvesKeepsLinks(g, h);
    EvolvesKeepsUnique(g, h);
    KeepsEntities(g, h);
    KeepsJobs(g, h);
    forall f | f in h.facts ensures HeirOk(h, f) {
      if f != prior { assert f in g.facts ==> HeirOk(g, f); }
    }
  }

  lemma InsertedKeeps(g: Graph, t: Turn, op: Operation, existing: Option<Id>, subject: Id, target: Target,
        entities: set<Id>)
    requires Consistent(g) && Pending(g, entities, {}) && t.episode in g.episodes
    requires existing.Some? ==> existing.value in g.facts && g.facts[existing.value].user == t.user
    requires LinkLive(g, NewFact(t, op, subject, target))
    requires !exists id :: ActiveSame(g, id, t.user, subject, op.relation, target)
    requires forall e | e in entities :: Mentions(NewFact(t, op, subject, target), e)
    ensures var h := Inserted(g, t, op, existing, subject, target); Inv(h) && Evolves(g, h)
  {
    var g1 := WithFact(g, NewFact(t, op, subject, target));
    WithFactKeeps(g, NewFact(t, op, subject, target), entities);
    if op.verb == Supersede && existing.Some? {
      var g2 := Retired(g1, existing.value, g.next, EndOfOld(t, op));
      RetiredKeeps(g1, existing.value, g.next, EndOfOld(t, op));
      EvidencedKeeps(g2, g.next, t.episode, SourceOf(t, op), {g.next});
      EvolvesTransitive(g, g1, g2);
      EvolvesTransitive(g, g2, Inserted(g, t, op, existing, subject, target));
    } else {
      EvidencedKeeps(g1, g.next, t.episode, SourceOf(t, op), {g.next});
      EvolvesTransitive(g, g1, Inserted(g, t, op, existing, subject, target));
    }
  }

  ghost predicate ResolvedOk(g: Graph, t: Turn, op: Operation, h: Graph, subject: Id, target: Target) {
    && Consistent(h) && Pending(h, if target.Linked? then {subject, target.entity} else {subject}, {}) && Evolves(g, h)
    && LinkLive(h, NewFact(t, op, subject, target))
    && h.facts == g.facts && h.episodes == g.episodes && h.evidence == g.evidence
  }

  lemma ResolvedBothKeeps(g: Graph, t: Turn, op: Operation)
    requires Inv(g)
    ensures var (h, subject, target) := ResolvedBoth(g, t, op); ResolvedOk(g, t, op, h, subject, target)
  {
    ResolvedKeeps(g, t.user, op.subject, {});
    var (g1, subject) := Resolved(g, t.user, op.subject);
    assert {} + {subject} == {subject};
    if LinksObject(op) {
      ResolvedKeeps(g1, t.user, op.target.value, {subject});
      var (g2, o) := Resolved(g1, t.user, op.target.value);
      EvolvesTransitive(g, g1, g2);
      assert EntityKept(g1, g2, subject);
      assert {subject} + {o} == {subject, o};
    }
  }

  lemma ConfirmedKeeps(g: Graph, t: Turn, op: Operation, subject: Id, target: Target, d: Id)
    requires Consistent(g) && Pending(g, if target.Linked? then {subject, target.entity} else {subject}, {})
    requires ActiveSame(g, d, t.user, subject, op.relation, target) && t.episode in g.episodes
    ensures var h := Confirmed(g, t, op, d); Inv(h) && Evolves(g, h) && h.episodes == g.episodes
  {
    assert Mentions(g.facts[d], subject) && (target.Linked? ==> Mentions(g.facts[d], target.entity));
    assert Referenced(g, subject) && (target.Linked? ==> Referenced(g, target.entity));
    assert Pending(g, {}, {});
    var g1 := Strengthened(g, d, op);
    StrengthenedKeeps(g, d, op);
    EvidencedKeeps(g1, d, t.episode, Evidence(t.trigger, op.basis), {});
    EvolvesTransitive(g, g1, Confirmed(g, t, op, d));
  }

  lemma ReinforcedKeeps(g: Graph, t: Turn, op: Operation)
    requires Inv(g) && t.episode in g.episodes
    ensures var h := Reinforced(g, t, op); Inv(h) && Evolves(g, h) && h.episodes == g.episodes
  {
    match Existing(g, t, op)
    case None =>
    case Some(id) =>
      StrengthenedKeeps(g, id, op);
      EvidencedKeeps(Strengthened(g, id, op), id, t.episode, SourceOf(t, op), {});
      EvolvesTransitive(g, Strengthened(g, id, op), Reinforced(g, t, op));
  }

  lemma RecordedKeeps(g: Graph, t: Turn, op: Operation)
    requires Inv(g) && t.episode in g.episodes
    ensures var h := Recorded(g, t, op); Inv(h) && Evolves(g, h) && h.episodes == g.episodes
  {
    ResolvedBothKeeps(g, t, op);
    var (g1, subject, target) := ResolvedBoth(g, t, op);
    var h := Recorded(g, t, op);
    match FindDuplicate(g1, t.user, subject, op.relation, target)
    case Some(d) =>
      ConfirmedKeeps(g1, t, op, subject, target, d);
      EvolvesTransitive(g, g1, h);
    case None =>
      InsertedKeeps(g1, t, op, Existing(g1, t, op), subject, target,
        if target.Linked? then {subject, target.entity} else {subject});
      EvolvesTransitive(g, g1, h);
  }

  /** One consolidation operation keeps the invariant and only lets rows evolve. */
  lemma AppliedKeepsInv(g: Graph, t: Turn, op: Operation)
    requires Inv(g) && t.episode in g.episodes
    ensures Inv(Applied(g, t, op)) && Evolves(g, Applied(g, t, op)) && Applied(g, t, op).episodes == g.episodes
  {
    if op.verb == Reinforce { ReinforcedKeeps(g, t, op); } else { RecordedKeeps(g, t, op); }
  }

  lemma {:induction false} AppliedAllKeepsInv(g: Graph, t: Turn, ops: seq<Operation>)
    requires Inv(g) && t.episode in g.episodes
    ensures Inv(AppliedAll(g, t, ops)) && Evolves(g, AppliedAll(g, t, ops)) &&
      AppliedAll(g, t, ops).episodes == g.episodes
  {
    if ops != [] {
      var front := AppliedAll(g, t, ops[..|ops| - 1]);
      AppliedAllKeepsInv(g, t, ops[..|ops| - 1]);
      AppliedKeepsInv(front, t, ops[|ops| - 1]);
      EvolvesTransitive(g, front, AppliedAll(g, t, ops));
    }
  }

  lemma WithEpisodeKeepsInv(g: Graph, job: Job, c: Consolidation)
    requires Inv(g) && !JobDone(g, job.id)
    ensures Inv(WithEpisode(g, job, c)) && Evolves(g, WithEpisode(g, job, c))
  {
    var h := WithEpisode(g, job, c);
    assert Evolves(g, h);
    EvolvesKeepsPending(g, h, {}, {});
    EvolvesKeepsLinks(g, h);
    EvolvesKeepsUnique(g, h);
    KeepsEntities(g, h);
    KeepsSupersession(g, h);
    forall i, j | SameJob(h, i, j) ensures i == j {
      if i in g.episodes && j in g.episodes { assert SameJob(g, i, j); }
    }
  }

  lemma PersistedKeepsInv(g: Graph, job: Job, c: Consolidation)
    requires Inv(g)
    ensures Inv(Persisted(g, job, c)) && Evolves(g, Persisted(g, job, c))
  {
    if !SaysNothing(c) && !JobDone(g, job.id) {
      var g1 := WithEpisode(g, job, c);
      WithEpisodeKeepsInv(g, job, c);
      AppliedAllKeepsInv(g1, TurnOf(g, job), c.operations);
      EvolvesTransitive(g, g1, Persisted(g, job, c));
    }
  }

  lemma ForgottenKeepsInv(g: Graph, user: User, ids: set<Id>)
    requires Inv(g)
    ensures Inv(Forgotten(g, user, ids))
  {
    var gone := Chosen(g, user, ids);
    if gone != {} {
      var g1 := g.(episodes := Forgotten(g, user, ids).episodes);
      assert forall id | id in g.episodes :: id in g1.episodes && g1.episodes[id].job == g.episodes[id].job;
      forall i, j | SameJob(g1, i, j) ensures i == j { assert SameJob(g, i, j); }
      WithoutFactsKeeps(g, g1, gone, user);
      WithoutOrphansKeeps(WithoutFacts(g1, gone), user);
    }
  }

  lemma WithoutFactsEvidence(g: Graph, h: Graph, gone: set<Id>)
    requires Inv(g) && h.facts.Keys == g.facts.Keys - gone
    requires h.evidence == map k | k in g.evidence && k.0 !in gone :: g.evidence[k]
    ensures forall f {:trigger HasEvidence(h, f)} | f in h.facts :: HasEvidence(h, f)
  {
    forall f | f in h.facts ensures HasEvidence(h, f) {
      assert HasEvidence(g, f);
      var k :| k in g.evidence && k.0 == f;
      assert k in h.evidence;
    }
  }

  /** Orphans are left behind only among the forgetting user's entities. */
  lemma WithoutFactsReferences(g: Graph, h: Graph, gone: set<Id>, user: User)
    requires Inv(g) && h.facts.Keys == g.facts.Keys - gone && h.entities == g.entities
    requires forall id | id in gone :: id in g.facts && g.facts[id].user == user
    requires forall id | id in h.facts :: h.facts[id].(supersededBy := None) == g.facts[id].(supersededBy := None)
    ensures forall e {:trigger Referenced(h, e)} | e in h.entities && h.entities[e].user != user :: Referenced(h, e)
  {
    forall e | e in h.entities && h.entities[e].user != user ensures Referenced(h, e) {
      assert Referenced(g, e);
      var f :| f in g.facts && Mentions(g.facts[f], e);
      assert LinkLive(g, g.facts[f]);
      assert f in h.facts && Mentions(h.facts[f], e);
    }
  }

  lemma WithoutFactsKeeps(g: Graph, g1: Graph, gone: set<Id>, user: User)
    requires Inv(g) && JobsUnique(g1) && g1 == g.(episodes := g1.episodes) && g1.episodes.Keys == g.episodes.Keys
    requires forall id | id in gone :: id in g.facts && g.facts[id].user == user
    ensures var h := WithoutFacts(g1, gone);
      Consistent(h) && Pending(h, set e | e in h.entities && h.entities[e].user == user, {})
  {
    var h := WithoutFacts(g1, gone);
    assert h.facts.Keys == g.facts.Keys - gone;
    WithoutFactsEvidence(g, h, gone);
    WithoutFactsReferences(g, h, gone, user);
    forall f | f in h.facts ensures LinkLive(h, h.facts[f]) { assert LinkLive(g, g.facts[f]); }
    forall i, j | SameActive(h, i, j) ensures i == j { assert SameActive(g, i, j); }
    KeepsEntities(g, h);
    KeepsJobs(g1, h);
    forall f | f in h.facts ensures HeirOk(h, f) { assert HeirOk(g, f); }
  }

  lemma WithoutOrphansKeeps(g: Graph, user: User)
    requires Consistent(g) && Pending(g, set e | e in g.entities && g.entities[e].user == user, {})
    ensures Inv(WithoutOrphans(g, user))
  {
    var h := WithoutOrphans(g, user);
    forall e | e in h.entities ensures Referenced(h, e) {
      assert Referenced(g, e);
      var f :| f in g.facts && Mentions(g.facts[f], e);
      assert f in h.facts && Mentions(h.facts[f], e);
    }
    forall f | f in h.facts ensures HasEvidence(h, f) { assert HasEvidence(g, f); }
    forall f | f in h.facts ensures LinkLive(h, h.facts[f]) {
      var x := h.facts[f];
      assert LinkLive(g, x) && f in g.facts && Mentions(x, x.subject) && Referenced(g, x.subject);
      if x.target.Linked? { assert Mentions(x, x.target.entity) && Referenced(g, x.target.entity); }
    }
    forall i, j | SameEntity(h, i, j) ensures i == j { assert SameEntity(g, i, j); }
    forall i, j | SameActive(h, i, j) ensures i == j { assert SameActive(g, i, j); }
    KeepsJobs(g, h);
    KeepsSupersession(g, h);
  }
}
