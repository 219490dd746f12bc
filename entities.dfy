/**
 * The two persisted entities, ChatSession and ChatMessage. Both are objects
 * whose JPA lifecycle hooks (@PrePersist, @PreUpdate) assign fields in place;
 * each has a datatype snapshot of its columns (`Row()`), which is what the
 * stores expose as their abstract state.
 */
module Entities {
  import opened Wrappers

  /** A session or message identifier (java.util.UUID); nothing is assumed about its structure. */
  type Uuid(==, !new)

  /** A reading of the clock (java.time.Instant), as a count of ticks. */
  type Instant = int

  /** Java's `long`. */
  const MinLong: int := -0x8000_0000_0000_0000
  const MaxLong: int := 0x7FFF_FFFF_FFFF_FFFF
  type Long = x: int | MinLong <= x <= MaxLong

  /** The declared length of the `sender` column. */
  const SenderColumnLength: nat := 32

  // ---------------------------------------------------------------------------
  // ChatSession
  // ---------------------------------------------------------------------------

  /** The columns of a `chat_session` row. */
  datatype SessionRow = SessionRow(
    id: Option<Uuid>,
    userId: Option<string>,
    title: string,
    favorite: bool,
    createdAt: Option<Instant>,
    updatedAt: Option<Instant>,
    deletedAt: Option<Instant>)
  {
    /** Soft-deleted: the deletion timestamp is present. */
    predicate IsDeleted() {
      deletedAt.Some?
    }
  }

  class ChatSession {
    var id: Option<Uuid>
    var userId: Option<string>
    var title: string
    var favorite: bool
    var createdAt: Option<Instant>
    var updatedAt: Option<Instant>
    var deletedAt: Option<Instant>

    /** The row this object currently holds. */
    function Row(): SessionRow
      reads this
    {
      SessionRow(id, userId, title, favorite, createdAt, updatedAt, deletedAt)
    }

    /**
     * `new ChatSession()` followed by `setTitle` and `setUserId`: no id, no
     * timestamps, not deleted, and not a favourite.
     */
    constructor (title: string, userId: Option<string>)
      ensures Row() == SessionRow(None, userId, title, false, None, None, None)
    {
      this.id := None;
      this.userId := userId;
      this.title := title;
      this.favorite := false;
      this.createdAt := None;
      this.updatedAt := None;
      this.deletedAt := None;
    }

    /**
     * @PrePersist: stamps creation and update with the same instant, and draws
     * a fresh id only when none is set.
     */
    method OnCreate(now: Instant, freshId: Uuid)
      modifies this
      ensures createdAt == Some(now) && updatedAt == Some(now)
      ensures id == if old(id).None? then Some(freshId) else old(id)
      ensures userId == old(userId) && title == old(title)
      ensures favorite == old(favorite) && deletedAt == old(deletedAt)
    {
      createdAt := Some(now);
      updatedAt := Some(now);
      if id.None? {
        id := Some(freshId);
      }
    }

    /** @PreUpdate: refreshes `updatedAt` only; `createdAt` is not updatable. */
    method OnUpdate(now: Instant)
      modifies this`updatedAt
      ensures updatedAt == Some(now)
    {
      updatedAt := Some(now);
    }
  }

  // ---------------------------------------------------------------------------
  // ChatMessage
  // ---------------------------------------------------------------------------

  /** The columns of a `chat_message` row; `sessionId` is the `session_id` join column. */
  datatype MessageRow = MessageRow(
    id: Option<Uuid>,
    sessionId: Uuid,
    sender: string,
    content: string,
    retrievedContext: Option<string>,
    createdAt: Option<Instant>,
    sequenceNumber: Option<Long>)

  /**
   * The column constraints the database enforces when the row is flushed.
   * `session_id`, `sender` and `content` are non-null by construction here;
   * what is left is the length of `sender`.
   */
  predicate FitsColumns(m: MessageRow) {
    |m.sender| <= SenderColumnLength
  }

  class ChatMessage {
    var id: Option<Uuid>
    var sessionId: Uuid
    var sender: string
    var content: string
    var retrievedContext: Option<string>
    var createdAt: Option<Instant>
    var sequenceNumber: Option<Long>

    function Row(): MessageRow
      reads this
    {
      MessageRow(id, sessionId, sender, content, retrievedContext, createdAt, sequenceNumber)
    }

    /**
     * `new ChatMessage()` followed by the setters the message service calls:
     * session, sender, content, retrieved context and sequence number.
     */
    constructor (sessionId: Uuid, sender: string, content: string,
                 retrievedContext: Option<string>, sequenceNumber: Option<Long>)
      ensures Row() == MessageRow(None, sessionId, sender, content, retrievedContext, None, sequenceNumber)
    {
      this.id := None;
      this.sessionId := sessionId;
      this.sender := sender;
      this.content := content;
      this.retrievedContext := retrievedContext;
      this.createdAt := None;
      this.sequenceNumber := sequenceNumber;
    }

    /** @PrePersist: fills `createdAt` and `id` only where they are unset. */
    method OnCreate(now: Instant, freshId: Uuid)
      modifies this`createdAt, this`id
      ensures createdAt == if old(createdAt).None? then Some(now) else old(createdAt)
      ensures id == if old(id).None? then Some(freshId) else old(id)
    {
      if createdAt.None? {
        createdAt := Some(now);
      }
      if id.None? {
        id := Some(freshId);
      }
    }
  }
}
