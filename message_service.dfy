/**
 * ChatMessageService: the message pipeline. `addMessage` stores the inbound
 * message of a live session; when its sender is USER (in any case) it
 * retrieves three snippets, asks the LLM client for a reply and stores that
 * reply as an ASSISTANT message carrying the joined snippets. Both inserts
 * belong to one transaction. `getMessages` lists a live session's messages
 * oldest first.
 */
module MessageService {
  import opened Wrappers
  import opened Strings
  import opened Entities
  import opened Repositories
  import opened Retrieval
  import opened LlmClient

  /** How many snippets the pipeline asks for. */
  const DefaultTopK: int := 3
  const UserSender := "USER"
  const AssistantSender := "ASSISTANT"
  /** What separates the snippets in the stored retrieved context. */
  const ContextSeparator := "\n\n---\n\n"

  /** The body of POST /api/v1/sessions/{id}/messages. */
  datatype CreateMessageRequest = CreateMessageRequest(
    sender: string,
    content: string,
    retrievedContext: Option<string>,
    sequenceNumber: Option<Long>)

  /** The pipeline runs for USER in any case; the sender itself is stored as given. */
  predicate IsUserSender(sender: string) {
    EqualsIgnoreCase(UserSender, sender)
  }

  /** What `addMessage` ends with. */
  datatype AddOutcome =
    | SessionNotFound
    | Saved(message: ChatMessage)
    | StorageFailure

  // ---------------------------------------------------------------------------
  // The rows a call stores
  // ---------------------------------------------------------------------------

  /** The snippet texts of the results, in rank order. */
  function SnippetsOf(results: seq<RetrievalResult>): (snippets: seq<string>)
    ensures |snippets| == |results|
    ensures forall i :: 0 <= i < |results| ==> snippets[i] == results[i].snippet
  {
    seq(|results|, i requires 0 <= i < |results| => results[i].snippet)
  }

  /** The retrieved context stored with a reply: the snippets with a rule between neighbours. */
  function JoinedContext(snippets: seq<string>): (r: string)
    ensures snippets == [] ==> r == ""
    ensures |snippets| == 1 ==> r == snippets[0]
  {
    Join(snippets, ContextSeparator)
  }

  /** `n + 1` on a Java `long`: the largest value wraps round to the smallest. */
  function NextSequenceNumber(n: Option<Long>): (r: Option<Long>)
    ensures n.None? <==> r.None?
    ensures n.Some? && n.value < MaxLong ==> r == Some(n.value + 1)
    ensures n == Some(MaxLong) ==> r == Some(MinLong)
  {
    match n
    case None => None
    case Some(v) => Some(if v == MaxLong then MinLong else v + 1)
  }

  /** The inbound row: exactly the request's fields, under the session. */
  function InboundRow(sessionId: Uuid, req: CreateMessageRequest, id: Uuid, at: Instant): (r: MessageRow)
    ensures r.sessionId == sessionId && r.sender == req.sender && r.content == req.content
    ensures r.retrievedContext == req.retrievedContext && r.sequenceNumber == req.sequenceNumber
    ensures r.id == Some(id) && r.createdAt == Some(at)
  {
    MessageRow(Some(id), sessionId, req.sender, req.content, req.retrievedContext, Some(at), req.sequenceNumber)
  }

  /** The reply row: the generated text, the joined snippets and the next sequence number. */
  function AssistantRow(sessionId: Uuid, reply: LlmResponse, snippets: seq<string>,
                        inboundSequence: Option<Long>, id: Uuid, at: Instant): (r: MessageRow)
    ensures r.sessionId == sessionId && r.sender == AssistantSender && r.content == reply.generatedText
    ensures r.retrievedContext.Some?
    ensures inboundSequence.None? ==> r.sequenceNumber.None?
    ensures inboundSequence.Some? && inboundSequence.value < MaxLong ==> r.sequenceNumber == Some(inboundSequence.value + 1)
  {
    MessageRow(Some(id), sessionId, AssistantSender, reply.generatedText,
               Some(JoinedContext(snippets)), Some(at), NextSequenceNumber(inboundSequence))
  }

  /**
   * The rows one call on a live session stores, in order: the inbound row,
   * followed for a USER turn by the reply built from `retrieve` and `generate`.
   */
  function Appended(retrieve: Retriever, generate: Generator, sessionId: Uuid, req: CreateMessageRequest,
                    inboundId: Uuid, replyId: Uuid, inboundAt: Instant, replyAt: Instant): (r: seq<MessageRow>)
    ensures |r| == if IsUserSender(req.sender) then 2 else 1
    ensures r[0] == InboundRow(sessionId, req, inboundId, inboundAt)
    ensures forall i :: 0 <= i < |r| ==> r[i].sessionId == sessionId
  {
    var inbound := InboundRow(sessionId, req, inboundId, inboundAt);
    if IsUserSender(req.sender) then
      var snippets := SnippetsOf(retrieve(req.content, DefaultTopK));
      [inbound, AssistantRow(sessionId, generate(req.content, snippets), snippets, req.sequenceNumber, replyId, replyAt)]
    else
      [inbound]
  }

  /** The calls the retrieval bean receives in one pipeline run on a live session. */
  function RetrievalsOf(req: CreateMessageRequest): seq<RetrieveRequest> {
    if IsUserSender(req.sender) then [RetrieveRequest(req.content, DefaultTopK)] else []
  }

  /** The calls the LLM client receives in one pipeline run on a live session. */
  function GenerationsOf(retrieve: Retriever, req: CreateMessageRequest): seq<GenerateRequest> {
    if IsUserSender(req.sender) then [GenerateRequest(req.content, SnippetsOf(retrieve(req.content, DefaultTopK)))] else []
  }

  /** The messages of one session, in store order. */
  function SessionMessages(rows: seq<MessageRow>, sessionId: Uuid): (r: seq<MessageRow>)
    ensures |r| <= |rows|
    ensures forall i :: 0 <= i < |r| ==> r[i].sessionId == sessionId
    ensures forall m :: m in r <==> m in rows && m.sessionId == sessionId
  {
    if rows == [] then []
    else
      var front := SessionMessages(rows[..|rows| - 1], sessionId);
      var last := rows[|rows| - 1];
      assert rows == rows[..|rows| - 1] + [last];
      if last.sessionId == sessionId then front + [last] else front
  }

  /** Each of the session's rows appears as often as in the store, and no other row appears. */
  lemma {:induction false} SessionMessagesMultiset(rows: seq<MessageRow>, sessionId: Uuid)
    ensures forall m ::
      multiset(SessionMessages(rows, sessionId))[m] == if m.sessionId == sessionId then multiset(rows)[m] else 0
    decreases |rows|
  {
    if rows != [] {
      var init := rows[..|rows| - 1];
      var last := rows[|rows| - 1];
      assert rows == init + [last];
      SessionMessagesMultiset(init, sessionId);
    }
  }

  /** Store order is kept: the messages of two stretches of the store come one after the other. */
  lemma {:induction false} SessionMessagesAppend(a: seq<MessageRow>, b: seq<MessageRow>, sessionId: Uuid)
    ensures SessionMessages(a + b, sessionId) == SessionMessages(a, sessionId) + SessionMessages(b, sessionId)
    decreases |b|
  {
    if b != [] {
      var init := b[..|b| - 1];
      var last := b[|b| - 1];
      assert (a + b)[..|a + b| - 1] == a + init;
      assert (a + b)[|a + b| - 1] == last;
      SessionMessagesAppend(a, init, sessionId);
    } else {
      assert a + b == a;
    }
  }

  // ---------------------------------------------------------------------------
  // Properties of a pipeline run
  // ---------------------------------------------------------------------------

  /**
   * A turn whose sender is not USER stores exactly the inbound message, with
   * the request's fields unchanged, and makes no collaborator call.
   */
  lemma NonUserTurn(retrieve: Retriever, generate: Generator, sessionId: Uuid, req: CreateMessageRequest,
                    inboundId: Uuid, replyId: Uuid, inboundAt: Instant, replyAt: Instant)
    requires !IsUserSender(req.sender)
    ensures var rows := Appended(retrieve, generate, sessionId, req, inboundId, replyId, inboundAt, replyAt);
      && |rows| == 1
      && rows[0].sender == req.sender && rows[0].content == req.content
      && rows[0].retrievedContext == req.retrievedContext && rows[0].sequenceNumber == req.sequenceNumber
      && rows[0].sessionId == sessionId
    ensures RetrievalsOf(req) == [] && GenerationsOf(retrieve, req) == []
  {
  }

  /**
   * A USER turn stores the inbound message and then the reply: sender
   * ASSISTANT, the generator's text for the request's content and the
   * snippets retrieved for it, the same session, and the inbound sequence
   * number plus one. The retriever is asked once, for three snippets.
   */
  lemma UserTurn(retrieve: Retriever, generate: Generator, sessionId: Uuid, req: CreateMessageRequest,
                 inboundId: Uuid, replyId: Uuid, inboundAt: Instant, replyAt: Instant)
    requires IsUserSender(req.sender)
    ensures var rows := Appended(retrieve, generate, sessionId, req, inboundId, replyId, inboundAt, replyAt);
      var snippets := SnippetsOf(retrieve(req.content, 3));
      && |rows| == 2
      && rows[0] == InboundRow(sessionId, req, inboundId, inboundAt)
      && rows[1].sender == "ASSISTANT" && rows[1].sessionId == sessionId
      && rows[1].content == generate(req.content, snippets).generatedText
      && rows[1].retrievedContext == Some(JoinedContext(snippets))
      && rows[1].sequenceNumber == NextSequenceNumber(req.sequenceNumber)
    ensures RetrievalsOf(req) == [RetrieveRequest(req.content, 3)]
    ensures GenerationsOf(retrieve, req) == [GenerateRequest(req.content, SnippetsOf(retrieve(req.content, 3)))]
  {
  }

  /** Both rows of a USER turn fit their columns: "USER" in any case has four characters. */
  lemma {:induction false} UserTurnFits(retrieve: Retriever, generate: Generator, sessionId: Uuid, req: CreateMessageRequest,
                                        inboundId: Uuid, replyId: Uuid, inboundAt: Instant, replyAt: Instant)
    requires IsUserSender(req.sender)
    ensures AllFit(Appended(retrieve, generate, sessionId, req, inboundId, replyId, inboundAt, replyAt))
  {
    var rows := Appended(retrieve, generate, sessionId, req, inboundId, replyId, inboundAt, replyAt);
    assert |rows[0].sender| == |UserSender| == 4;
    assert |rows[1].sender| == |AssistantSender| == 9;
  }

  /**
   * Splitting the stored context at the rule recovers the snippets, provided
   * there is at least one and none of them lets a rule start inside it.
   */
  lemma ContextRoundTrip(snippets: seq<string>)
    requires |snippets| >= 1
    requires forall i :: 0 <= i < |snippets| ==> Separable(snippets[i], ContextSeparator)
    ensures Split(JoinedContext(snippets), ContextSeparator) == snippets
  {
    SplitJoin(snippets, ContextSeparator);
  }

  /** Snippets without a line break always split back out of the stored context. */
  lemma ContextRoundTripWithoutNewline(snippets: seq<string>)
    requires |snippets| >= 1
    requires forall i, j :: 0 <= i < |snippets| && 0 <= j < |snippets[i]| ==> snippets[i][j] != '\n'
    ensures Split(JoinedContext(snippets), ContextSeparator) == snippets
  {
    forall i | 0 <= i < |snippets| ensures Separable(snippets[i], ContextSeparator) {
      SeparableWithoutFirstChar(snippets[i], ContextSeparator);
    }
    SplitJoin(snippets, ContextSeparator);
  }

  /**
   * "No snippet contains the rule" is not enough for the round trip: a snippet
   * ending in part of the rule completes a rule early with the one after it.
   */
  lemma ContextRoundTripNeedsSeparable()
    ensures !Contains("x\n\n---", ContextSeparator) && !Contains("y", ContextSeparator)
    ensures Split(JoinedContext(["x\n\n---", "y"]), ContextSeparator) == ["x", "---\n\ny"]
  {
    var s := JoinedContext(["x\n\n---", "y"]);
    assert s == "x\n\n---\n\n---\n\ny";
    assert s[..7][0] == 'x' != ContextSeparator[0];
    assert !OccursAt(s, ContextSeparator, 0);
    assert s[1..8] == ContextSeparator;
    assert FindFrom(s, ContextSeparator, 0) == Some(1);
    var rest := s[8..];
    assert rest == "---\n\ny";
    assert FindFrom(rest, ContextSeparator, 0) == None;
    assert s[..1] == "x";
    assert Split(s, ContextSeparator) == [s[..1]] + Split(rest, ContextSeparator);
    assert forall k: nat :: !OccursAt("x\n\n---", ContextSeparator, k);
    assert forall k: nat :: !OccursAt("y", ContextSeparator, k);
  }

  /**
   * The worked example: three snippets and a client sequence number 5 give a
   * reply whose context is the three snippets separated by rules, numbered 6.
   */
  lemma WorkedExample(retrieve: Retriever, generate: Generator, sessionId: Uuid, inboundId: Uuid, replyId: Uuid,
                      inboundAt: Instant, replyAt: Instant)
    requires retrieve("What is X?", 3) == [RetrievalResult("ctx-1", "s1"), RetrievalResult("ctx-2", "s2"), RetrievalResult("ctx-3", "s3")]
    requires generate("What is X?", ["ctx-1", "ctx-2", "ctx-3"]) == LlmResponse("X is ...", "model-A")
    ensures var req := CreateMessageRequest("USER", "What is X?", None, Some(5));
      var rows := Appended(retrieve, generate, sessionId, req, inboundId, replyId, inboundAt, replyAt);
      && |rows| == 2
      && rows[1].content == "X is ..."
      && rows[1].retrievedContext == Some("ctx-1\n\n---\n\nctx-2\n\n---\n\nctx-3")
      && rows[1].sequenceNumber == Some(6)
  {
    var req := CreateMessageRequest("USER", "What is X?", None, Some(5));
    assert IsUserSender(req.sender);
    var snippets := ["ctx-1", "ctx-2", "ctx-3"];
    assert SnippetsOf(retrieve("What is X?", 3)) == snippets;
    ExampleContext();
    assert NextSequenceNumber(Some(5)) == Some(6);
  }

  /** The three snippets of the worked example joined with rules. */
  lemma ExampleContext()
    ensures JoinedContext(["ctx-1", "ctx-2", "ctx-3"]) == "ctx-1\n\n---\n\nctx-2\n\n---\n\nctx-3"
  {
    var snippets := ["ctx-1", "ctx-2", "ctx-3"];
    assert JoinedContext(snippets) == "ctx-1" + ContextSeparator + ("ctx-2" + ContextSeparator + "ctx-3") by {
      assert snippets[1..] == ["ctx-2", "ctx-3"] && snippets[1..][1..] == ["ctx-3"];
    }
  }

  /** Filtering keeps the store's order, so a session's messages stay oldest first. */
  lemma {:induction false} SessionMessagesSorted(rows: seq<MessageRow>, sessionId: Uuid)
    requires SortedByCreatedAt(rows)
    ensures SortedByCreatedAt(SessionMessages(rows, sessionId))
    decreases |rows|
  {
    if rows != [] {
      var init := rows[..|rows| - 1];
      var last := rows[|rows| - 1];
      assert SortedByCreatedAt(init) by {
        forall i, j | 0 <= i < j < |init| ensures NotAfter(init[i], init[j]) {
          assert init[i] == rows[i] && init[j] == rows[j];
        }
      }
      SessionMessagesSorted(init, sessionId);
      var front := SessionMessages(init, sessionId);
      if last.sessionId == sessionId {
        var r := front + [last];
        forall i, j | 0 <= i < j < |r| ensures NotAfter(r[i], r[j]) {
          if j == |front| {
            assert r[i] in init;
            var k :| 0 <= k < |init| && init[k] == r[i];
            assert rows[k] == r[i] && rows[|rows| - 1] == last;
          } else {
            assert r[i] == front[i] && r[j] == front[j];
          }
        }
      }
    }
  }

  // ---------------------------------------------------------------------------
  // The service
  // ---------------------------------------------------------------------------

  class ChatMessageService {
    const messageRepository: MessageRepository
    const sessionRepository: SessionRepository
    const retrievalService: RetrievalService
    const llmClient: LlmClientBean

    constructor (messageRepository: MessageRepository, sessionRepository: SessionRepository,
                 retrievalService: RetrievalService, llmClient: LlmClientBean)
      ensures this.messageRepository == messageRepository && this.sessionRepository == sessionRepository
      ensures this.retrievalService == retrievalService && this.llmClient == llmClient
    {
      this.messageRepository := messageRepository;
      this.sessionRepository := sessionRepository;
      this.retrievalService := retrievalService;
      this.llmClient := llmClient;
    }

    /**
     * `addMessage`, one transaction. `inboundId`/`replyId` are the ids the
     * fresh-id supply hands out and `inboundAt`/`replyAt` the clock readings
     * taken when each message is saved. On a missing or soft-deleted session
     * nothing is stored and no collaborator is called. Otherwise the inbound
     * message, and for a USER turn the reply, are saved and the transaction
     * commits; if a row does not fit its columns the commit fails and neither
     * row is kept.
     */
    method AddMessage(sessionId: Uuid, req: CreateMessageRequest, inboundId: Uuid, replyId: Uuid,
                      inboundAt: Instant, replyAt: Instant)
      returns (outcome: AddOutcome)
      requires sessionRepository.Valid() && messageRepository.Valid() && messageRepository.pending == []
      requires inboundId != replyId
      requires IdUnused(messageRepository.Rows(), inboundId) && IdUnused(messageRepository.Rows(), replyId)
      requires AllAtOrBefore(messageRepository.Rows(), inboundAt) && inboundAt <= replyAt
      modifies messageRepository, retrievalService, llmClient
      ensures messageRepository.Valid() && messageRepository.pending == []
      ensures sessionRepository.Table() == old(sessionRepository.Table())
      ensures !Live(sessionRepository.Table(), sessionId) ==>
        && outcome == SessionNotFound
        && messageRepository.Rows() == old(messageRepository.Rows())
        && retrievalService.received == old(retrievalService.received)
        && llmClient.received == old(llmClient.received)
      ensures Live(sessionRepository.Table(), sessionId) ==>
        && retrievalService.received == old(retrievalService.received) + RetrievalsOf(req)
        && llmClient.received == old(llmClient.received) + GenerationsOf(retrievalService.retrieve, req)
      ensures var rows := Appended(retrievalService.retrieve, llmClient.generate, sessionId, req,
                                   inboundId, replyId, inboundAt, replyAt);
        Live(sessionRepository.Table(), sessionId) && AllFit(rows) ==>
        && messageRepository.Rows() == old(messageRepository.Rows()) + rows
        && outcome.Saved? && outcome.message.Row() == rows[|rows| - 1]
      ensures var rows := Appended(retrievalService.retrieve, llmClient.generate, sessionId, req,
                                   inboundId, replyId, inboundAt, replyAt);
        Live(sessionRepository.Table(), sessionId) && !AllFit(rows) ==>
        && outcome == StorageFailure
        && messageRepository.Rows() == old(messageRepository.Rows())
    {
      var session := sessionRepository.FindById(sessionId);
      if session == null || session.deletedAt.Some? {
        return SessionNotFound;
      }
      assert Live(sessionRepository.Table(), sessionId);
      outcome := RecordTurn(sessionId, req, inboundId, replyId, inboundAt, replyAt);
    }

    /**
     * The part of `addMessage` after the session check: save the inbound
     * message, run the pipeline for a USER turn, then commit.
     */
    method RecordTurn(sessionId: Uuid, req: CreateMessageRequest, inboundId: Uuid, replyId: Uuid,
                      inboundAt: Instant, replyAt: Instant)
      returns (outcome: AddOutcome)
      requires messageRepository.Valid() && messageRepository.pending == []
      requires inboundId != replyId
      requires IdUnused(messageRepository.Rows(), inboundId) && IdUnused(messageRepository.Rows(), replyId)
      requires AllAtOrBefore(messageRepository.Rows(), inboundAt) && inboundAt <= replyAt
      modifies messageRepository, retrievalService, llmClient
      ensures messageRepository.Valid() && messageRepository.pending == []
      ensures retrievalService.received == old(retrievalService.received) + RetrievalsOf(req)
      ensures llmClient.received == old(llmClient.received) + GenerationsOf(retrievalService.retrieve, req)
      ensures var rows := Appended(retrievalService.retrieve, llmClient.generate, sessionId, req,
                                   inboundId, replyId, inboundAt, replyAt);
        AllFit(rows) ==>
        && messageRepository.Rows() == old(messageRepository.Rows()) + rows
        && outcome.Saved? && outcome.message.Row() == rows[|rows| - 1]
      ensures var rows := Appended(retrievalService.retrieve, llmClient.generate, sessionId, req,
                                   inboundId, replyId, inboundAt, replyAt);
        !AllFit(rows) ==> outcome == StorageFailure && messageRepository.Rows() == old(messageRepository.Rows())
    {
      if EqualsIgnoreCase(UserSender, req.sender) {
        outcome := RecordUserTurn(sessionId, req, inboundId, replyId, inboundAt, replyAt);
      } else {
        var incoming := SaveInbound(sessionId, req, inboundId, inboundAt);
        outcome := CommitTurn(incoming, [InboundRow(sessionId, req, inboundId, inboundAt)]);
      }
    }

    /** A USER turn: the inbound message and the reply are saved, then the transaction ends. */
    method RecordUserTurn(sessionId: Uuid, req: CreateMessageRequest, inboundId: Uuid, replyId: Uuid,
                          inboundAt: Instant, replyAt: Instant)
      returns (outcome: AddOutcome)
      requires IsUserSender(req.sender)
      requires messageRepository.Valid() && messageRepository.pending == []
      requires inboundId != replyId
      requires IdUnused(messageRepository.Rows(), inboundId) && IdUnused(messageRepository.Rows(), replyId)
      requires AllAtOrBefore(messageRepository.Rows(), inboundAt) && inboundAt <= replyAt
      modifies messageRepository, retrievalService, llmClient
      ensures messageRepository.Valid() && messageRepository.pending == []
      ensures retrievalService.received == old(retrievalService.received) + [RetrieveRequest(req.content, DefaultTopK)]
      ensures var snippets := SnippetsOf(retrievalService.retrieve(req.content, DefaultTopK));
        var rows := [InboundRow(sessionId, req, inboundId, inboundAt),
                     AssistantRow(sessionId, llmClient.generate(req.content, snippets), snippets,
                                  req.sequenceNumber, replyId, replyAt)];
        && llmClient.received == old(llmClient.received) + [GenerateRequest(req.content, snippets)]
        && (AllFit(rows) ==>
          && messageRepository.Rows() == old(messageRepository.Rows()) + rows
          && outcome.Saved? && outcome.message.Row() == rows[1])
        && (!AllFit(rows) ==> outcome == StorageFailure && messageRepository.Rows() == old(messageRepository.Rows()))
    {
      var incoming := SaveInbound(sessionId, req, inboundId, inboundAt);
      var assistant := AnswerTurn(sessionId, req.content, req.sequenceNumber, replyId, replyAt);
      ghost var snippets := SnippetsOf(retrievalService.retrieve(req.content, DefaultTopK));
      outcome := CommitTurn(assistant, [InboundRow(sessionId, req, inboundId, inboundAt),
                                        AssistantRow(sessionId, llmClient.generate(req.content, snippets), snippets,
                                                     req.sequenceNumber, replyId, replyAt)]);
    }

    /** The end of the transaction: both rows are kept when all fit their columns, neither otherwise. */
    method CommitTurn(result: ChatMessage, ghost rows: seq<MessageRow>) returns (outcome: AddOutcome)
      requires messageRepository.Valid() && |rows| >= 1
      requires messageRepository.PendingRows() == rows && result.Row() == rows[|rows| - 1]
      modifies messageRepository
      ensures messageRepository.Valid() && messageRepository.pending == []
      ensures AllFit(rows) ==>
        && messageRepository.Rows() == old(messageRepository.Rows()) + rows
        && outcome.Saved? && outcome.message.Row() == rows[|rows| - 1]
      ensures !AllFit(rows) ==> outcome == StorageFailure && messageRepository.Rows() == old(messageRepository.Rows())
    {
      var committed := messageRepository.Commit();
      if committed {
        outcome := Saved(result);
      } else {
        outcome := StorageFailure;
      }
    }

    /** Step 1 of the pipeline: the inbound message, with the request's fields, joins the transaction. */
    method SaveInbound(sessionId: Uuid, req: CreateMessageRequest, inboundId: Uuid, inboundAt: Instant)
      returns (incoming: ChatMessage)
      requires messageRepository.Valid() && messageRepository.pending == []
      requires IdUnused(messageRepository.Rows(), inboundId)
      requires AllAtOrBefore(messageRepository.Rows(), inboundAt)
      modifies messageRepository`pending
      ensures fresh(incoming)
      ensures messageRepository.Valid()
      ensures messageRepository.Rows() == old(messageRepository.Rows())
      ensures messageRepository.PendingRows() == [InboundRow(sessionId, req, inboundId, inboundAt)]
      ensures incoming.Row() == InboundRow(sessionId, req, inboundId, inboundAt)
    {
      incoming := new ChatMessage(sessionId, req.sender, req.content, req.retrievedContext, req.sequenceNumber);
      assert messageRepository.Rows() + messageRepository.PendingRows() == messageRepository.Rows();
      messageRepository.Save(incoming, inboundAt, inboundId);
    }

    /**
     * Steps 2 to 4 of the pipeline for a USER turn: retrieve three snippets
     * for the message, then have the reply generated and saved.
     */
    method AnswerTurn(sessionId: Uuid, content: string, inboundSequence: Option<Long>, replyId: Uuid, replyAt: Instant)
      returns (assistant: ChatMessage)
      requires messageRepository.Valid()
      requires IdUnused(messageRepository.Rows() + messageRepository.PendingRows(), replyId)
      requires AllAtOrBefore(messageRepository.Rows() + messageRepository.PendingRows(), replyAt)
      modifies messageRepository, retrievalService, llmClient
      ensures messageRepository.Valid()
      ensures var snippets := SnippetsOf(retrievalService.retrieve(content, DefaultTopK));
        var row := AssistantRow(sessionId, llmClient.generate(content, snippets), snippets, inboundSequence, replyId, replyAt);
        && messageRepository.Rows() == old(messageRepository.Rows())
        && messageRepository.PendingRows() == old(messageRepository.PendingRows()) + [row]
        && assistant.Row() == row
        && llmClient.received == old(llmClient.received) + [GenerateRequest(content, snippets)]
      ensures retrievalService.received == old(retrievalService.received) + [RetrieveRequest(content, DefaultTopK)]
    {
      var results := retrievalService.Retrieve(content, DefaultTopK);
      var snippets := SnippetsOf(results);
      assistant := SaveReply(sessionId, content, snippets, inboundSequence, replyId, replyAt);
    }

    /**
     * Steps 3 and 4 of the pipeline: ask the LLM client for a reply and save
     * it as an ASSISTANT message with the joined snippets and the next
     * sequence number.
     */
    method SaveReply(sessionId: Uuid, content: string, snippets: seq<string>, inboundSequence: Option<Long>,
                     replyId: Uuid, replyAt: Instant)
      returns (assistant: ChatMessage)
      requires messageRepository.Valid()
      requires IdUnused(messageRepository.Rows() + messageRepository.PendingRows(), replyId)
      requires AllAtOrBefore(messageRepository.Rows() + messageRepository.PendingRows(), replyAt)
      modifies messageRepository, llmClient
      ensures messageRepository.Valid()
      ensures messageRepository.Rows() == old(messageRepository.Rows())
      ensures messageRepository.PendingRows() == old(messageRepository.PendingRows())
        + [AssistantRow(sessionId, llmClient.generate(content, snippets), snippets, inboundSequence, replyId, replyAt)]
      ensures assistant.Row()
        == AssistantRow(sessionId, llmClient.generate(content, snippets), snippets, inboundSequence, replyId, replyAt)
      ensures llmClient.received == old(llmClient.received) + [GenerateRequest(content, snippets)]
    {
      var llmResp := llmClient.Generate(content, snippets);
      assistant := new ChatMessage(sessionId, AssistantSender, llmResp.generatedText,
                                   Some(JoinedContext(snippets)), NextSequenceNumber(inboundSequence));
      ghost var row := AssistantRow(sessionId, llmResp, snippets, inboundSequence, replyId, replyAt);
      messageRepository.Save(assistant, replyAt, replyId);
      assert assistant.Row() == row;
    }

    /**
     * `getMessages`: nothing for a missing or soft-deleted session; otherwise
     * all of that session's messages, oldest first.
     */
    method GetMessages(sessionId: Uuid) returns (messages: seq<MessageRow>)
      requires sessionRepository.Valid() && messageRepository.Valid()
      ensures !Live(sessionRepository.Table(), sessionId) ==> messages == []
      ensures Live(sessionRepository.Table(), sessionId) ==> messages == SessionMessages(messageRepository.Rows(), sessionId)
      ensures SortedByCreatedAt(messages)
    {
      var session := sessionRepository.FindById(sessionId);
      if session == null || session.deletedAt.Some? {
        return [];
      }
      WellFormedPrefix(messageRepository.Rows(), messageRepository.PendingRows());
      SessionMessagesSorted(messageRepository.Rows(), sessionId);
      messages := SessionMessages(messageRepository.Rows(), sessionId);
    }
  }
}
