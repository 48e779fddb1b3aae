/**
 The tables of the memory graph and the transactions that update them in place
 (memory/service.py).  Each method is proved to do to the rows exactly what the functions of
 `MemoryGraph` say.
 */
module MemoryStore {
  import opened Options
  import opened MemoryGraph

  class Store {
    var facts: map<Id, Fact>
    var entities: map<Id, Entity>
    var evidence: map<(Id, Id), Evidence>
    var episodes: map<Id, Episode>
    var next: Id

    ghost function Contents(): Graph
      reads this
    {
      Graph(facts, entities, evidence, episodes, next)
    }

    constructor ()
      ensures Contents() == Empty && Inv(Contents())
    {
      facts, entities, evidence, episodes, next := map[], map[], map[], map[], 0;
    }

    method ResolveEntity(user: User, m: Mention) returns (id: Id)
      requires EntitiesUnique(Contents())
      modifies this`entities, this`next
      ensures (Contents(), id) == Resolved(old(Contents()), user, m)
    {
      ghost var g := Contents();
      if found :|
        && found in entities
        && entities[found].user == user && entities[found].kind == m.kind && entities[found].key == m.key
      {
        assert IsEntity(g, found, user, m);
        assert forall other | IsEntity(g, other, user, m) :: SameEntity(g, found, other);
        var entity := entities[found];
        if m.name != entity.name && m.name !in entity.aliases {
          entities := entities[found := entity.(aliases := entity.aliases + [m.name])];
        } else {
          assert entities == entities[found := entity];
        }
        return found;
      }
      assert !exists other :: IsEntity(g, other, user, m);
      id := next;
      entities := entities[id := Entity(user, m.kind, m.key, m.name, [])];
      next := id + 1;
    }

    method AddEvidence(fact: Id, episode: Id, e: Evidence)
      modifies this`evidence
      ensures Contents() == Evidenced(old(Contents()), fact, episode, e)
    {
      if (fact, episode) !in evidence { evidence := evidence[(fact, episode) := e]; }
    }

    method Strengthen(id: Id, op: Operation)
      requires id in facts
      modifies this`facts
      ensures Contents() == Strengthened(old(Contents()), id, op)
    {
      var f := facts[id];
      facts := facts[id := f.(confidence := if f.confidence < op.confidence then op.confidence else f.confidence,
                              importance := if f.importance < op.importance then op.importance else f.importance)];
    }

    method FindActive(user: User, subject: Id, relation: string, target: Target) returns (found: Option<Id>)
      requires ActiveFactsUnique(Contents())
      ensures found == FindDuplicate(Contents(), user, subject, relation, target)
    {
      ghost var g := Contents();
      if id :| id in facts && facts[id].user == user && facts[id].subject == subject
               && facts[id].relation == relation && facts[id].target == target && facts[id].status == Active {
        assert ActiveSame(g, id, user, subject, relation, target);
        assert forall other | ActiveSame(g, other, user, subject, relation, target) :: SameActive(g, id, other);
        return Some(id);
      }
      assert !exists id :: ActiveSame(g, id, user, subject, relation, target);
      return None;
    }

    method FindExisting(t: Turn, op: Operation) returns (found: Option<Id>)
      ensures found == Existing(Contents(), t, op)
    {
      if op.existing.None? || op.existing.value !in facts { return None; }
      var f := facts[op.existing.value];
      if f.user != t.user { return None; }
      if f.status == Superseded && (f.validUntil.None? || f.validUntil.value <= t.now) { return None; }
      if f.validUntil.Some? && f.validUntil.value <= t.now { return None; }
      return op.existing;
    }

    method InsertFact(t: Turn, op: Operation, existing: Option<Id>, subject: Id, target: Target)
      requires existing.Some? ==> existing.value in facts
      modifies this
      ensures Contents() == Inserted(old(Contents()), t, op, existing, subject, target)
    {
      var id := next;
      var start := if op.validFrom.Some? then op.validFrom.value else t.occurredAt;
      facts := facts[id := Fact(t.user, subject, op.relation, target, op.statement, op.confidence, op.importance,
                                Active, start, op.validUntil, None)];
      next := id + 1;
      if op.verb == Supersede && existing.Some? {
        var end := if op.validFrom.Some? && op.validFrom.value > t.occurredAt then op.validFrom.value else t.occurredAt;
        facts := facts[existing.value :=
          facts[existing.value].(status := Superseded, validUntil := Some(end), supersededBy := Some(id))];
      }
      AddEvidence(id, t.episode, Evidence(if op.basis == UserStated then t.trigger else t.response, op.basis));
    }

    method ResolveBoth(t: Turn, op: Operation) returns (subject: Id, target: Target)
      requires Inv(Contents())
      modifies this`entities, this`next
      ensures (Contents(), subject, target) == ResolvedBoth(old(Contents()), t, op)
    {
      ResolvedUnique(Contents(), t.user, op.subject);
      subject := ResolveEntity(t.user, op.subject);
      target := Plain(op.objectValue);
      if op.objectIsEntity && op.target.Some? {
        var entity := ResolveEntity(t.user, op.target.value);
        target := Linked(entity);
      }
    }

    method Reinforce(t: Turn, op: Operation)
      modifies this
      ensures Contents() == Reinforced(old(Contents()), t, op)
    {
      var existing := FindExisting(t, op);
      if existing.Some? {
        Strengthen(existing.value, op);
        AddEvidence(existing.value, t.episode,
          Evidence(if op.basis == UserStated then t.trigger else t.response, op.basis));
      }
    }

    method Record(t: Turn, op: Operation)
      requires Inv(Contents())
      modifies this
      ensures Contents() == Recorded(old(Contents()), t, op)
    {
      ResolvedBothKeeps(Contents(), t, op);
      var existing := FindExisting(t, op);
      var subject, target := ResolveBoth(t, op);
      var duplicate := FindActive(t.user, subject, op.relation, target);
      if duplicate.Some? {
        Strengthen(duplicate.value, op);
        AddEvidence(duplicate.value, t.episode, Evidence(t.trigger, op.basis));
      } else {
        InsertFact(t, op, existing, subject, target);
      }
    }

    method ApplyOperation(t: Turn, op: Operation)
      requires Inv(Contents()) && t.episode in episodes
      modifies this
      ensures Contents() == Applied(old(Contents()), t, op)
      ensures Inv(Contents()) && episodes == old(episodes)
    {
      AppliedKeepsInv(Contents(), t, op);
      if op.verb == Verb.Reinforce { Reinforce(t, op); } else { Record(t, op); }
    }

    method ApplyOperations(t: Turn, ops: seq<Operation>)
      requires Inv(Contents()) && t.episode in episodes
      modifies this
      ensures Contents() == AppliedAll(old(Contents()), t, ops)
      ensures Inv(Contents())
    {
      for i := 0 to |ops|
        invariant Contents() == AppliedAll(old(Contents()), t, ops[..i])
        invariant Inv(Contents()) && episodes == old(episodes)
      {
        assert ops[..i + 1][..i] == ops[..i];
        ApplyOperation(t, ops[i]);
      }
      assert ops[..|ops|] == ops;
    }

    method InsertEpisode(job: Job, c: Consolidation) returns (t: Turn)
      modifies this`episodes, this`next
      ensures Contents() == WithEpisode(old(Contents()), job, c) && t == TurnOf(old(Contents()), job)
    {
      t := Turn(job.user, next, job.trigger, job.response, job.occurredAt, job.now);
      var summary := if c.summary != "" then c.summary else if c.operations != [] then c.operations[0].statement
        else "";
      episodes := episodes[next := Episode(job.user, job.id, summary, c.storeEpisode, job.occurredAt)];
      next := next + 1;
    }

    /** `_persist_consolidation`: false only when there is nothing to store. */
    method PersistConsolidation(job: Job, c: Consolidation) returns (stored: bool)
      requires Inv(Contents())
      modifies this
      ensures Contents() == Persisted(old(Contents()), job, c)
      ensures stored <==> !SaysNothing(c)
      ensures Inv(Contents())
    {
      if c.operations == [] && !(c.storeEpisode && c.summary != "") { return false; }
      if e :| e in episodes && episodes[e].job == job.id {
        assert JobDone(Contents(), job.id);
        return true;
      }
      assert !JobDone(Contents(), job.id);
      WithEpisodeKeepsInv(Contents(), job, c);
      var t := InsertEpisode(job, c);
      ApplyOperations(t, c.operations);
      return true;
    }

    method HideEpisodes(gone: set<Id>)
      modifies this`episodes
      ensures episodes == map e | e in old(episodes) ::
        if e in Tainted(old(Contents()), gone) then Hidden(old(episodes)[e]) else old(episodes)[e]
    {
      var tainted := set k | k in evidence && k.0 in gone :: k.1;
      episodes := map e | e in episodes ::
        if e in tainted then episodes[e].(summary := FORGOTTEN, retrievable := false) else episodes[e];
    }

    method DeleteFacts(gone: set<Id>)
      modifies this`facts, this`evidence
      ensures Contents() == WithoutFacts(old(Contents()), gone)
    {
      evidence := map k | k in evidence && k.0 !in gone :: evidence[k];
      facts := map id | id in facts && id !in gone ::
        if facts[id].supersededBy.Some? && facts[id].supersededBy.value in gone
        then facts[id].(supersededBy := None) else facts[id];
    }

    method DeleteOrphans(user: User)
      modifies this`entities
      ensures Contents() == WithoutOrphans(old(Contents()), user)
    {
      var subjects := set id | id in facts :: facts[id].subject;
      var objects := set id | id in facts && facts[id].target.Linked? :: facts[id].target.entity;
      ghost var g := Contents();
      forall e ensures Referenced(g, e) <==> e in subjects || e in objects {
        if e in subjects { var id :| id in facts && facts[id].subject == e; assert Mentions(g.facts[id], e); }
        if e in objects {
          var id :| id in facts && facts[id].target.Linked? && facts[id].target.entity == e;
          assert Mentions(g.facts[id], e);
        }
      }
      entities := map e | e in entities && (entities[e].user != user || e in subjects || e in objects) :: entities[e];
    }

    /** `forget_user_memories`; the count is the number of facts removed. */
    method ForgetMemories(user: User, ids: set<Id>) returns (count: nat)
      modifies this
      ensures Contents() == Forgotten(old(Contents()), user, ids)
      ensures count == |Chosen(old(Contents()), user, ids)|
    {
      var gone := set id | id in ids && id in facts && facts[id].user == user;
      if gone == {} { return 0; }
      HideEpisodes(gone);
      DeleteFacts(gone);
      DeleteOrphans(user);
      return |gone|;
    }
  }
}
