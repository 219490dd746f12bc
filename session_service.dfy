/**
 * ChatSessionService: create, read, rename, toggle the favourite flag and
 * soft-delete sessions. Each mutating operation is specified by a transition
 * function on the session table; every operation that names a session refuses
 * one that is missing or soft-deleted, and no operation ever removes a row.
 */
module SessionService {
  import opened Wrappers
  import opened Entities
  import opened Repositories

  /** The body of POST /api/v1/sessions. */
  datatype CreateSessionRequest = CreateSessionRequest(title: string, userId: Option<string>)

  // ---------------------------------------------------------------------------
  // The table transitions
  // ---------------------------------------------------------------------------

  /** The row a new session gets: the request's title and user, not a favourite, not deleted. */
  function NewSessionRow(id: Uuid, req: CreateSessionRequest, now: Instant): SessionRow {
    SessionRow(Some(id), req.userId, req.title, false, Some(now), Some(now), None)
  }

  function AfterCreate(t: SessionTable, id: Uuid, req: CreateSessionRequest, now: Instant): SessionTable {
    t[id := NewSessionRow(id, req, now)]
  }

  function AfterRename(t: SessionTable, id: Uuid, title: string, now: Instant): SessionTable {
    if Live(t, id) then t[id := t[id].(title := title, updatedAt := Some(now))] else t
  }

  function AfterToggleFavorite(t: SessionTable, id: Uuid, now: Instant): SessionTable {
    if Live(t, id) then t[id := t[id].(favorite := !t[id].favorite, updatedAt := Some(now))] else t
  }

  /** `deletedAt` is the service's clock reading, `now` the one the @PreUpdate hook takes. */
  function AfterSoftDelete(t: SessionTable, id: Uuid, deletedAt: Instant, now: Instant): SessionTable {
    if Live(t, id) then t[id := t[id].(deletedAt := Some(deletedAt), updatedAt := Some(now))] else t
  }

  /** One call of a mutating operation, with the clock readings it takes. */
  datatype SessionOp =
    | Create(newId: Uuid, req: CreateSessionRequest, now: Instant)
    | Rename(id: Uuid, title: string, now: Instant)
    | ToggleFavorite(id: Uuid, now: Instant)
    | SoftDelete(id: Uuid, deletedAt: Instant, now: Instant)
  {
    /** The session the operation touches. */
    function Target(): Uuid {
      if Create? then newId else id
    }
  }

  function Apply(t: SessionTable, op: SessionOp): SessionTable {
    match op
    case Create(newId, req, now) => AfterCreate(t, newId, req, now)
    case Rename(id, title, now) => AfterRename(t, id, title, now)
    case ToggleFavorite(id, now) => AfterToggleFavorite(t, id, now)
    case SoftDelete(id, deletedAt, now) => AfterSoftDelete(t, id, deletedAt, now)
  }

  /** What the fresh-id supply guarantees: a created session gets an id not yet in the table. */
  predicate Feasible(t: SessionTable, op: SessionOp) {
    op.Create? ==> op.newId !in t
  }

  /** Applies the operations in order. */
  function Run(t: SessionTable, ops: seq<SessionOp>): SessionTable
    decreases |ops|
  {
    if ops == [] then t else Run(Apply(t, ops[0]), ops[1..])
  }

  /** Every operation in the run gets ids from the fresh-id supply. */
  predicate FeasibleRun(t: SessionTable, ops: seq<SessionOp>)
    decreases |ops|
  {
    ops == [] || (Feasible(t, ops[0]) && FeasibleRun(Apply(t, ops[0]), ops[1..]))
  }

  // ---------------------------------------------------------------------------
  // Properties of the transitions
  // ---------------------------------------------------------------------------

  /** Every operation touches only the session it names, and adds a row only when it creates one. */
  lemma OnlyTargetChanges(t: SessionTable, op: SessionOp, k: Uuid)
    requires k != op.Target()
    ensures k in Apply(t, op) <==> k in t
    ensures k in t ==> Apply(t, op)[k] == t[k]
  {
  }

  /** An operation on a missing or soft-deleted session other than create changes nothing. */
  lemma RefusedWhenNotLive(t: SessionTable, op: SessionOp)
    requires !op.Create? && !Live(t, op.Target())
    ensures Apply(t, op) == t
  {
  }

  /** Rename changes the title and the update stamp of a live session, and nothing else. */
  lemma RenameChangesOnlyTitle(t: SessionTable, id: Uuid, title: string, now: Instant)
    requires Live(t, id)
    ensures AfterRename(t, id, title, now).Keys == t.Keys
    ensures AfterRename(t, id, title, now)[id].title == title
    ensures AfterRename(t, id, title, now)[id].(title := t[id].title, updatedAt := t[id].updatedAt) == t[id]
  {
  }

  /** Toggling twice restores the favourite flag; only the update stamp moves. */
  lemma ToggleTwiceRestores(t: SessionTable, id: Uuid, now1: Instant, now2: Instant)
    requires Live(t, id)
    ensures AfterToggleFavorite(AfterToggleFavorite(t, id, now1), id, now2) == t[id := t[id].(updatedAt := Some(now2))]
  {
  }

  /** A second soft delete of the same session is refused and changes nothing. */
  lemma SoftDeleteOnce(t: SessionTable, id: Uuid, at1: Instant, now1: Instant, at2: Instant, now2: Instant)
    requires Live(t, id)
    ensures !Live(AfterSoftDelete(t, id, at1, now1), id)
    ensures AfterSoftDelete(AfterSoftDelete(t, id, at1, now1), id, at2, now2) == AfterSoftDelete(t, id, at1, now1)
  {
  }

  /**
   * Rows are never removed, and a soft-deleted row is frozen: no run of
   * operations whose ids come from the fresh-id supply changes it again.
   */
  lemma {:induction false} DeletedIsFinal(t: SessionTable, ops: seq<SessionOp>, id: Uuid)
    requires FeasibleRun(t, ops)
    ensures t.Keys <= Run(t, ops).Keys
    ensures id in t && t[id].IsDeleted() ==> Run(t, ops)[id] == t[id]
    decreases |ops|
  {
    if ops != [] {
      var t' := Apply(t, ops[0]);
      if id in t && t[id].IsDeleted() {
        assert t'[id] == t[id];
      }
      DeletedIsFinal(t', ops[1..], id);
    }
  }

  /** `createdAt` is fixed at creation: no later operation changes it. */
  lemma {:induction false} CreatedAtIsStable(t: SessionTable, ops: seq<SessionOp>, id: Uuid)
    requires FeasibleRun(t, ops) && id in t
    ensures id in Run(t, ops) && Run(t, ops)[id].createdAt == t[id].createdAt
    decreases |ops|
  {
    if ops != [] {
      DeletedIsFinal(t, ops[..1], id);
      assert Run(t, ops[..1]) == Apply(t, ops[0]);
      CreatedAtIsStable(Apply(t, ops[0]), ops[1..], id);
    }
  }

  // ---------------------------------------------------------------------------
  // The service
  // ---------------------------------------------------------------------------

  class ChatSessionService {
    const repository: SessionRepository

    constructor (repository: SessionRepository)
      ensures this.repository == repository
    {
      this.repository := repository;
    }

    /** `createSession`: stores a new session under a fresh id; no other row changes. */
    method CreateSession(req: CreateSessionRequest, now: Instant, freshId: Uuid) returns (s: ChatSession)
      requires repository.Valid() && freshId !in repository.byId
      modifies repository
      ensures repository.Valid() && fresh(s)
      ensures repository.byId == old(repository.byId)[freshId := s]
      ensures repository.Table() == AfterCreate(old(repository.Table()), freshId, req, now)
      ensures s.Row() == NewSessionRow(freshId, req, now)
    {
      s := new ChatSession(req.title, req.userId);
      repository.Persist(s, now, freshId);
      assert repository.Table()[freshId] == s.Row();
    }

    /** `getById`: the session when it is live, otherwise null. */
    method GetById(id: Uuid) returns (s: ChatSession?)
      requires repository.Valid()
      ensures s != null <==> Live(repository.Table(), id)
      ensures s != null ==> id in repository.byId && s == repository.byId[id] && s.Row() == repository.Table()[id]
    {
      s := repository.FindById(id);
      if s == null {
        return null;
      }
      if s.deletedAt.Some? {
        return null;
      }
    }

    /** `renameSession`: a live session gets the new title; otherwise null and nothing changes. */
    method RenameSession(id: Uuid, newTitle: string, now: Instant) returns (s: ChatSession?)
      requires repository.Valid()
      modifies repository.byId.Values
      ensures repository.Valid() && repository.byId == old(repository.byId)
      ensures repository.Table() == AfterRename(old(repository.Table()), id, newTitle, now)
      ensures s != null <==> Live(old(repository.Table()), id)
      ensures s != null ==> s == repository.byId[id] && s.Row() == repository.Table()[id]
    {
      ghost var before := repository.Table();
      s := repository.FindById(id);
      if s == null || s.deletedAt.Some? {
        return null;
      }
      assert Live(before, id) && before[id] == s.Row();
      s.title := newTitle;
      ghost var row := s.Row();
      forall k | k in repository.byId && k != id ensures repository.byId[k] != s {
      }
      assert repository.Table() == before[id := row];
      repository.Merge(s, now);
      assert repository.Table() == before[id := row.(updatedAt := Some(now))];
    }

    /** `toggleFavorite`: a live session's flag is negated; otherwise null and nothing changes. */
    method ToggleFavorite(id: Uuid, now: Instant) returns (s: ChatSession?)
      requires repository.Valid()
      modifies repository.byId.Values
      ensures repository.Valid() && repository.byId == old(repository.byId)
      ensures repository.Table() == AfterToggleFavorite(old(repository.Table()), id, now)
      ensures s != null <==> Live(old(repository.Table()), id)
      ensures s != null ==> s == repository.byId[id] && s.Row() == repository.Table()[id]
    {
      ghost var before := repository.Table();
      s := repository.FindById(id);
      if s == null || s.deletedAt.Some? {
        return null;
      }
      assert Live(before, id) && before[id] == s.Row();
      s.favorite := !s.favorite;
      ghost var row := s.Row();
      forall k | k in repository.byId && k != id ensures repository.byId[k] != s {
      }
      assert repository.Table() == before[id := row];
      repository.Merge(s, now);
      assert repository.Table() == before[id := row.(updatedAt := Some(now))];
    }

    /**
     * `softDeleteSession`: a live session gets its deletion stamp and the
     * result is true; otherwise false and nothing changes. The row stays.
     */
    method SoftDeleteSession(id: Uuid, deletedAt: Instant, now: Instant) returns (deleted: bool)
      requires repository.Valid()
      modifies repository.byId.Values
      ensures repository.Valid() && repository.byId == old(repository.byId)
      ensures repository.Table() == AfterSoftDelete(old(repository.Table()), id, deletedAt, now)
      ensures deleted <==> Live(old(repository.Table()), id)
    {
      ghost var before := repository.Table();
      var s := repository.FindById(id);
      if s == null || s.deletedAt.Some? {
        return false;
      }
      assert Live(before, id) && before[id] == s.Row();
      s.deletedAt := Some(deletedAt);
      ghost var row := s.Row();
      forall k | k in repository.byId && k != id ensures repository.byId[k] != s {
      }
      assert repository.Table() == before[id := row];
      repository.Merge(s, now);
      assert repository.Table() == before[id := row.(updatedAt := Some(now))];
      deleted := true;
    }

    /**
     * `getSessionsByUserId`: the sessions whose owner is `userId`. Unlike
     * every other read, it does not leave out soft-deleted sessions.
     */
    method GetSessionsByUserId(userId: string) returns (r: set<ChatSession>)
      ensures forall s :: s in r <==> s in repository.byId.Values && s.userId == Some(userId)
    {
      r := set k | k in repository.byId && repository.byId[k].userId == Some(userId) :: repository.byId[k];
    }
  }
}
