/** The generic CRUD service (`BaseServiceImpl`) over its repository. The
    repository is an in-memory table from identifier to entity together with
    the next identifier the database's identity column will hand out. */
module Crud {
  import opened Common
  import opened Failures
  import opened Domain

  /** Every stored entity carries its own key, and every key was handed out
      by the identity column, which counts up from 1. */
  ghost predicate WellKeyed<D>(rows: map<Id, Entity<D>>, nextId: Id)
  {
    && 1 <= nextId
    && forall k :: k in rows ==> rows[k].id == Some(k) && 1 <= k < nextId
  }

  /** `save(e)` merges into a stored row exactly when `e` carries the
      identifier of one. */
  predicate IsStored<D>(rows: map<Id, Entity<D>>, e: Entity<D>)
  {
    e.id.Some? && e.id.value in rows
  }

  /** The effect of the repository's `save(e)`: a merge overwrites the row of
      `e`'s own identifier as a whole; otherwise `e` is inserted under a newly
      generated identifier. `saved` is the persisted form `save` returns. */
  ghost predicate SaveEffect<D>(rows: map<Id, Entity<D>>, nextId: Id, e: Entity<D>,
                                rows': map<Id, Entity<D>>, nextId': Id, saved: Entity<D>)
  {
    if IsStored(rows, e) then
      saved == e && rows' == rows[e.id.value := e] && nextId' == nextId
    else
      saved == e.(id := Some(nextId)) && rows' == rows[nextId := saved] && nextId' == nextId + 1
  }

  /** After `save` returns `saved`, looking up `saved`'s identifier yields
      `saved`, whose fields are those that were passed in, and the table
      keeps its keys. */
  lemma SavedIsFound<D>(rows: map<Id, Entity<D>>, nextId: Id, e: Entity<D>,
                        rows': map<Id, Entity<D>>, nextId': Id, saved: Entity<D>)
    requires WellKeyed(rows, nextId)
    requires SaveEffect(rows, nextId, e, rows', nextId', saved)
    ensures WellKeyed(rows', nextId')
    ensures saved.id.Some? && saved.id.value in rows' && rows'[saved.id.value] == saved
    ensures saved.fields == e.fields
    ensures rows.Keys <= rows'.Keys
    ensures forall k :: k in rows && Some(k) != saved.id ==> rows'[k] == rows[k]
  {
  }

  /** What `update` throws for an identifier with no row. */
  function EntityNotFound(id: Id): Exception
  {
    RuntimeException(Some("Entity not found with ID " + DecimalText(id)))
  }

  class BaseService<D(==)> {
    var rows: map<Id, Entity<D>>
    var nextId: Id

    ghost predicate Valid()
      reads this
    {
      WellKeyed(rows, nextId)
    }

    /** An empty table whose identity column starts at 1. */
    constructor ()
      ensures Valid() && rows == map[] && nextId == 1
    {
      rows := map[];
      nextId := 1;
    }

    /** `save`: insert or merge, returning the persisted form. */
    method Save(e: Entity<D>) returns (saved: Entity<D>)
      requires Valid()
      modifies this
      ensures Valid()
      ensures SaveEffect(old(rows), old(nextId), e, rows, nextId, saved)
    {
      if IsStored(rows, e) {
        saved := e;
        rows := rows[e.id.value := e];
      } else {
        saved := e.(id := Some(nextId));
        rows := rows[nextId := saved];
        nextId := nextId + 1;
      }
    }

    /** `findById`: the stored entity, or empty; never fails. */
    function FindById(id: Id): (found: Option<Entity<D>>)
      reads this
      ensures found.Some? <==> id in rows
      ensures found.Some? ==> found.value == rows[id]
    {
      if id in rows then Some(rows[id]) else None
    }

    /** A repository query: every stored entity that satisfies `keep`, each
        once, in identifier order. */
    method Query(keep: Entity<D> -> bool) returns (found: seq<Entity<D>>)
      requires Valid()
      ensures forall k :: k in rows && keep(rows[k]) ==> rows[k] in found
      ensures forall e :: e in found ==> e.id.Some? && e.id.value in rows && rows[e.id.value] == e && keep(e)
      ensures forall i, j :: 0 <= i < j < |found| ==> found[i].id.value < found[j].id.value
    {
      found := [];
      for id := 1 to nextId
        invariant forall k :: k in rows && k < id && keep(rows[k]) ==> rows[k] in found
        invariant forall e :: e in found ==>
          e.id.Some? && e.id.value in rows && e.id.value < id && rows[e.id.value] == e && keep(e)
        invariant forall i, j :: 0 <= i < j < |found| ==> found[i].id.value < found[j].id.value
      {
        if id in rows && keep(rows[id]) {
          found := found + [rows[id]];
        }
      }
    }

    /** `findAll`: exactly the stored entities, each once. */
    method FindAll() returns (all: seq<Entity<D>>)
      requires Valid()
      ensures forall k :: k in rows ==> rows[k] in all
      ensures forall e :: e in all ==> e.id.Some? && e.id.value in rows && rows[e.id.value] == e
      ensures forall i, j :: 0 <= i < j < |all| ==> all[i].id != all[j].id
    {
      all := Query(e => true);
    }

    /** `update(id, e)`: the `id` argument only decides whether the call
        fails; the write is `save(e)`, keyed by `e`'s own identifier. */
    method Update(id: Id, e: Entity<D>) returns (r: Result<Entity<D>>)
      requires Valid()
      modifies this
      ensures Valid()
      ensures id !in old(rows) ==> r == Failure(EntityNotFound(id)) && rows == old(rows) && nextId == old(nextId)
      ensures id in old(rows) ==> r.Success? && SaveEffect(old(rows), old(nextId), e, rows, nextId, r.value)
      ensures id in old(rows) && e.id != Some(id) ==> id in rows && rows[id] == old(rows)[id]
    {
      if id !in rows {
        return Failure(EntityNotFound(id));
      }
      var saved := Save(e);
      r := Success(saved);
    }

    /** `deleteById`: removes the row if there is one; a missing identifier
        is silently ignored. */
    method DeleteById(id: Id)
      requires Valid()
      modifies this
      ensures Valid()
      ensures rows == old(rows) - {id} && nextId == old(nextId)
      ensures id !in old(rows) ==> rows == old(rows)
    {
      rows := rows - {id};
    }
  }
}
