/**
 * In-memory stand-ins for the two JPA repositories. The session store maps
 * each id to its managed ChatSession object; the message store keeps its
 * ChatMessage objects in insertion order, with the inserts of the running
 * transaction held as pending until commit (inserts are flushed, and column
 * constraints checked, when the transaction commits).
 */
module Repositories {
  import opened Wrappers
  import opened Entities

  /** The abstract content of the session table. */
  type SessionTable = map<Uuid, SessionRow>

  /** A session the services may use: present and not soft-deleted. */
  predicate Live(t: SessionTable, id: Uuid) {
    id in t && !t[id].IsDeleted()
  }

  class SessionRepository {
    var byId: map<Uuid, ChatSession>

    /** Every managed session is stored under its own id and has been stamped. */
    ghost predicate Valid()
      reads this, byId.Values
    {
      forall k :: k in byId ==> byId[k].id == Some(k) && byId[k].createdAt.Some? && byId[k].updatedAt.Some?
    }

    /** The rows of the table. */
    function Table(): SessionTable
      reads this, byId.Values
    {
      map k | k in byId :: byId[k].Row()
    }

    constructor ()
      ensures Valid() && Table() == map[]
    {
      byId := map[];
    }

    /** `findById`: the managed object, or null. */
    method FindById(id: Uuid) returns (s: ChatSession?)
      ensures s == if id in byId then byId[id] else null
    {
      s := if id in byId then byId[id] else null;
    }

    /**
     * `save` of a session without an id: its @PrePersist hook stamps it and
     * it is stored under a fresh id. No other row changes.
     */
    method Persist(s: ChatSession, now: Instant, freshId: Uuid)
      requires Valid()
      requires s.id.None? && freshId !in byId && s !in byId.Values
      modifies this, s
      ensures Valid()
      ensures s.id == Some(freshId) && byId == old(byId)[freshId := s]
      ensures Table() == old(Table())[freshId := old(s.Row()).(id := Some(freshId), createdAt := Some(now), updatedAt := Some(now))]
    {
      ghost var before := Table();
      s.OnCreate(now, freshId);
      byId := byId[freshId := s];
      forall k | k in byId && k != freshId ensures byId[k].Row() == before[k] {
        assert byId[k] in old(byId.Values);
      }
      assert Table() == before[freshId := s.Row()];
    }

    /**
     * `save` of a managed session: its @PreUpdate hook refreshes `updatedAt`
     * and the row takes the object's fields. No other row changes.
     */
    method Merge(s: ChatSession, now: Instant)
      requires Valid()
      requires s.id.Some? && s.id.value in byId && byId[s.id.value] == s
      modifies s
      ensures Valid()
      ensures s.id == old(s.id)
      ensures Table() == old(Table())[s.id.value := old(s.Row()).(updatedAt := Some(now))]
    {
      var id := s.id.value;
      ghost var before := Table();
      s.OnUpdate(now);
      forall k | k in byId && k != id ensures byId[k] != s {
      }
      assert Table() == before[id := s.Row()];
    }
  }

  // ---------------------------------------------------------------------------
  // Messages
  // ---------------------------------------------------------------------------

  /** Every row has been persisted: it has an id and a creation instant. */
  predicate Stamped(rows: seq<MessageRow>) {
    forall i :: 0 <= i < |rows| ==> rows[i].id.Some? && rows[i].createdAt.Some?
  }

  /** No two rows share an id. */
  predicate IdsDistinct(rows: seq<MessageRow>) {
    forall i, j :: 0 <= i < j < |rows| ==> rows[i].id != rows[j].id
  }

  /** `a` was created no later than `b`. */
  predicate NotAfter(a: MessageRow, b: MessageRow) {
    a.createdAt.Some? && b.createdAt.Some? && a.createdAt.value <= b.createdAt.value
  }

  /** Ascending by `createdAt`, the order the message query promises. */
  predicate SortedByCreatedAt(rows: seq<MessageRow>) {
    forall i, j :: 0 <= i < j < |rows| ==> NotAfter(rows[i], rows[j])
  }

  /** Every row was created at or before `t`. */
  predicate AllAtOrBefore(rows: seq<MessageRow>, t: Instant) {
    forall i :: 0 <= i < |rows| ==> rows[i].createdAt.Some? && rows[i].createdAt.value <= t
  }

  /** No row carries the id `u`. */
  predicate IdUnused(rows: seq<MessageRow>, u: Uuid) {
    forall i :: 0 <= i < |rows| ==> rows[i].id != Some(u)
  }

  /** The invariant of the stored message rows. */
  predicate WellFormed(rows: seq<MessageRow>) {
    Stamped(rows) && IdsDistinct(rows) && SortedByCreatedAt(rows)
  }

  function RowsOf(ms: seq<ChatMessage>): (rows: seq<MessageRow>)
    reads ms
    ensures |rows| == |ms|
  {
    if ms == [] then [] else RowsOf(ms[..|ms| - 1]) + [ms[|ms| - 1].Row()]
  }

  /** Every row fits its columns. */
  predicate AllFit(rows: seq<MessageRow>) {
    forall i :: 0 <= i < |rows| ==> FitsColumns(rows[i])
  }

  class MessageRepository {
    /** The committed messages, in insertion order. */
    var committed: seq<ChatMessage>
    /** The messages saved in the running transaction, not yet flushed. */
    var pending: seq<ChatMessage>

    function Rows(): seq<MessageRow>
      reads this, committed
    {
      RowsOf(committed)
    }

    function PendingRows(): seq<MessageRow>
      reads this, pending
    {
      RowsOf(pending)
    }

    /**
     * Committed and pending rows together are stamped, distinct by id and
     * ascending by creation instant; the committed rows also fit their columns.
     */
    ghost predicate Valid()
      reads this, committed, pending
    {
      WellFormed(Rows() + PendingRows()) && AllFit(Rows())
    }

    constructor ()
      ensures Valid() && Rows() == [] && pending == []
    {
      committed := [];
      pending := [];
    }

    /**
     * `save` of a new message inside the transaction: its @PrePersist hook
     * runs and the message becomes pending.
     */
    method Save(m: ChatMessage, now: Instant, freshId: Uuid)
      requires Valid()
      requires m !in committed && m !in pending
      requires m.id.None? && m.createdAt.None?
      requires IdUnused(Rows() + PendingRows(), freshId)
      requires AllAtOrBefore(Rows() + PendingRows(), now)
      modifies this`pending, m
      ensures Valid()
      ensures pending == old(pending) + [m]
      ensures Rows() == old(Rows())
      ensures PendingRows() == old(PendingRows()) + [old(m.Row()).(id := Some(freshId), createdAt := Some(now))]
      ensures m.Row() == old(m.Row()).(id := Some(freshId), createdAt := Some(now))
    {
      ghost var rows := Rows();
      ghost var pendingRows := PendingRows();
      m.OnCreate(now, freshId);
      assert Rows() == rows && PendingRows() == pendingRows;
      pending := pending + [m];
      assert pending[..|pending| - 1] == old(pending);
      assert PendingRows() == pendingRows + [m.Row()];
      AppendKeepsWellFormed(rows + pendingRows, m.Row(), now);
      assert Rows() + PendingRows() == (rows + pendingRows) + [m.Row()];
    }

    /**
     * The transaction commits: the pending rows are flushed when every one of
     * them fits its columns; otherwise the flush fails and all of them are
     * rolled back. Either way nothing is pending afterwards.
     */
    method Commit() returns (ok: bool)
      requires Valid()
      modifies this
      ensures Valid() && pending == []
      ensures ok <==> AllFit(old(PendingRows()))
      ensures Rows() == if ok then old(Rows()) + old(PendingRows()) else old(Rows())
    {
      ok := forall i :: 0 <= i < |pending| ==> FitsColumns(pending[i].Row());
      forall i | 0 <= i < |pending| ensures PendingRows()[i] == pending[i].Row() {
        RowsOfAt(pending, i);
      }
      if ok {
        RowsOfAppend(committed, pending);
        committed := committed + pending;
      } else {
        WellFormedPrefix(Rows(), PendingRows());
      }
      pending := [];
      assert Rows() + PendingRows() == Rows();
    }
  }

  lemma {:induction false} AppendKeepsWellFormed(rows: seq<MessageRow>, r: MessageRow, now: Instant)
    requires WellFormed(rows) && AllAtOrBefore(rows, now)
    requires r.id.Some? && IdUnused(rows, r.id.value) && r.createdAt == Some(now)
    ensures WellFormed(rows + [r])
  {
    var all := rows + [r];
    forall i, j | 0 <= i < j < |all| ensures all[i].id != all[j].id && NotAfter(all[i], all[j]) {
      if j == |rows| {
        assert all[i] == rows[i];
      } else {
        assert all[i] == rows[i] && all[j] == rows[j];
      }
    }
  }

  lemma {:induction false} RowsOfAt(ms: seq<ChatMessage>, i: nat)
    requires i < |ms|
    ensures RowsOf(ms)[i] == ms[i].Row()
    decreases |ms|
  {
    if i < |ms| - 1 {
      assert ms[..|ms| - 1][i] == ms[i];
      RowsOfAt(ms[..|ms| - 1], i);
    }
  }

  lemma {:induction false} RowsOfAppend(a: seq<ChatMessage>, b: seq<ChatMessage>)
    ensures RowsOf(a + b) == RowsOf(a) + RowsOf(b)
    decreases |b|
  {
    if b != [] {
      assert (a + b)[..|a + b| - 1] == a + b[..|b| - 1];
      RowsOfAppend(a, b[..|b| - 1]);
    } else {
      assert a + b == a;
    }
  }

  lemma {:induction false} WellFormedPrefix(a: seq<MessageRow>, b: seq<MessageRow>)
    requires WellFormed(a + b)
    ensures WellFormed(a)
  {
    assert forall i :: 0 <= i < |a| ==> a[i] == (a + b)[i];
    forall i, j | 0 <= i < j < |a| ensures a[i].id != a[j].id && NotAfter(a[i], a[j]) {
      assert a[i] == (a + b)[i] && a[j] == (a + b)[j];
    }
  }
}
