# rag-chat-service core, modelled in Dafny

This project models the core of rag-chat-service, a Spring Boot service that stores chat sessions and their messages. The modelled parts are:

- **Session service.** Sessions can be created, read, renamed, marked as favourite and soft-deleted. A session with a deletion stamp counts as gone for every operation that names it.
- **Message pipeline.** The inbound message is saved. For a USER turn, the pipeline then retrieves three snippets, asks an LLM client for a reply, and saves that reply as an ASSISTANT message with the snippets joined by a rule. Both inserts belong to one transaction.
- **Two LLM clients.**
  - A stub that echoes the message and lists the snippets.
  - An OpenAI-style HTTP client, including its best-effort response parser. Both sit behind a rate limiter with a fallback text.
- **Stub retrieval service.**
- **API-key security.**
  - A servlet filter that admits whitelisted paths, CORS preflight requests and requests whose X-API-KEY header equals a configured key. Every other request gets 401.
  - The configuration that resolves the key list and the whitelist from comma-separated settings and registers the filter.

The state is modelled on objects:
- The entities `ChatSession` and `ChatMessage` are classes whose JPA hooks assign fields in place.
- The repositories are classes holding those objects.

Each mutating service method is proved against a pure function on the abstract table (`SessionService.AfterRename`, `MessageService.Appended`, `ApiKeyConfig.ResolvedKeys`, ...), and the properties the code promises are proved as lemmas about those functions.

Parameters stand in for everything outside the code:
- clock readings (`now`, `inboundAt`, ...);
- fresh UUIDs (`freshId`, `inboundId`, ...);
- the rate limiter's decision (`permitted`);
- the HTTP exchange (`post`, a function from request to outcome);
- the injected retrieval and LLM beans (objects whose answers are given functions and which record the calls they receive);
- AntPathMatcher (`pathMatches`).

| file | module | models |
|---|---|---|
| wrappers.dfy | Wrappers | `Option` (a nullable value) |
| strings.dfy | Strings | the parts of java.lang.String the code uses: `String.join`/`Collectors.joining`/`StringJoiner`, `split`, `trim`, `isBlank`, `equalsIgnoreCase`, decimal rendering |
| entities.dfy | Entities | ChatSession.java, ChatMessage.java |
| repositories.dfy | Repositories | the two JPA repositories and the transaction's flush and rollback |
| session_service.dfy | SessionService | ChatSessionService.java |
| retrieval.dfy | Retrieval | MockRetrievalService.java |
| llm_client.dfy | LlmClient | the LlmClient interface and LlmResponse |
| mock_llm.dfy | MockLlm | MockLlmClientService.java |
| openai_llm.dfy | OpenAiLlm | OpenAiLlmClient.java |
| message_service.dfy | MessageService | ChatMessageService.java |
| api_key_filter.dfy | ApiKeyFilter | ApiKeyAuthFilter.java |
| api_key_config.dfy | ApiKeyConfig | ApiKeyAuthConfig.java |

Two behaviours of the code are worth knowing:

- **Transactions.** `addMessage` is one transaction, and its inserts are flushed at commit. The `sender` column holds at most 32 characters. A longer sender makes the flush fail, and then neither the inbound message nor the reply is stored. So the inbound message is stored only together with the rest of the turn: a turn whose commit fails leaves no row at all (`MessageService.ChatMessageService.AddMessage`).
- **Deleted sessions.** `getSessionsByUserId` does not leave out soft-deleted sessions, unlike every other read.

## Model

| member | source | states |
|---|---|---|
| Entities.ChatSession.constructor | src/main/java/com/firefist/rag_chat_service/service/ChatSessionService.java:27-30 | a new session has the request's title and user, no id, no timestamps, is not deleted and is not a favourite |
| Entities.ChatSession.OnCreate | src/main/java/com/firefist/rag_chat_service/model/ChatSession.java:48-54 | @PrePersist stamps `createdAt` and `updatedAt` with the same instant, draws an id only when none is set, and leaves every other field alone |
| Entities.ChatSession.OnUpdate | src/main/java/com/firefist/rag_chat_service/model/ChatSession.java:56-59 | @PreUpdate changes `updatedAt` and nothing else |
| Entities.ChatMessage.constructor | src/main/java/com/firefist/rag_chat_service/service/ChatMessageService.java:65-70 | a new message carries exactly the session, sender, content, retrieved context and sequence number set on it, with no id and no creation instant |
| Entities.ChatMessage.OnCreate | src/main/java/com/firefist/rag_chat_service/model/ChatMessage.java:47-51 | @PrePersist fills `createdAt` and `id` only where they are unset |
| Repositories.SessionRepository.FindById | src/main/java/com/firefist/rag_chat_service/service/ChatSessionService.java:52 | the managed session stored under the id, or null |
| Repositories.SessionRepository.Persist | src/main/java/com/firefist/rag_chat_service/service/ChatSessionService.java:32 | saving a new session runs its @PrePersist hook and stores it under the fresh id; no other row changes |
| Repositories.SessionRepository.Merge | src/main/java/com/firefist/rag_chat_service/service/ChatSessionService.java:57 | saving a managed session runs @PreUpdate; its row takes the object's fields with a new `updatedAt`, and no other row changes |
| Repositories.MessageRepository.Save | src/main/java/com/firefist/rag_chat_service/service/ChatMessageService.java:71 | a saved message is stamped and becomes pending; the committed rows stay the same, and the rows stay distinct by id and ascending by creation instant |
| Repositories.MessageRepository.Commit | src/main/java/com/firefist/rag_chat_service/service/ChatMessageService.java:59-60 | the commit flushes the pending rows exactly when all of them fit their columns, and otherwise rolls back all of them |
| Repositories.AppendKeepsWellFormed | src/main/java/com/firefist/rag_chat_service/model/ChatMessage.java:47-51 | appending a row stamped now with an unused id keeps the rows stamped, distinct by id and ascending by creation instant |
| SessionService.OnlyTargetChanges | src/main/java/com/firefist/rag_chat_service/service/ChatSessionService.java:26-77 | every operation touches only the session it names, and only create adds a row |
| SessionService.RefusedWhenNotLive | src/main/java/com/firefist/rag_chat_service/service/ChatSessionService.java:52-72 | rename, toggle and soft delete of a missing or soft-deleted session change nothing |
| SessionService.RenameChangesOnlyTitle | src/main/java/com/firefist/rag_chat_service/service/ChatSessionService.java:51-58 | rename sets the title, moves only the update stamp besides it, and keeps the set of rows |
| SessionService.ToggleTwiceRestores | src/main/java/com/firefist/rag_chat_service/service/ChatSessionService.java:61-67 | toggling twice restores the favourite flag; only the update stamp moves |
| SessionService.SoftDeleteOnce | src/main/java/com/firefist/rag_chat_service/service/ChatSessionService.java:70-77 | after a soft delete the session is no longer live, and a second soft delete changes nothing |
| SessionService.DeletedIsFinal | src/main/java/com/firefist/rag_chat_service/service/ChatSessionService.java:50-77 | over any run of operations, no row is removed and a soft-deleted row never changes again |
| SessionService.CreatedAtIsStable | src/main/java/com/firefist/rag_chat_service/model/ChatSession.java:39-59 | over any run of operations, a session's `createdAt` never changes |
| SessionService.ChatSessionService.CreateSession | src/main/java/com/firefist/rag_chat_service/service/ChatSessionService.java:26-33 | the table gains one row under the fresh id, with the request's title and user, not a favourite, not deleted and stamped now; no other row changes |
| SessionService.ChatSessionService.GetById | src/main/java/com/firefist/rag_chat_service/service/ChatSessionService.java:41-48 | the result is non-null exactly when the session is live, and then it is that session |
| SessionService.ChatSessionService.RenameSession | src/main/java/com/firefist/rag_chat_service/service/ChatSessionService.java:51-58 | the table becomes `AfterRename` of the old one; the result is non-null exactly when the session was live |
| SessionService.ChatSessionService.ToggleFavorite | src/main/java/com/firefist/rag_chat_service/service/ChatSessionService.java:61-67 | the table becomes `AfterToggleFavorite` of the old one; the result is non-null exactly when the session was live |
| SessionService.ChatSessionService.SoftDeleteSession | src/main/java/com/firefist/rag_chat_service/service/ChatSessionService.java:70-77 | the table becomes `AfterSoftDelete` of the old one (the row is kept); the result is true exactly when the session was live |
| SessionService.ChatSessionService.GetSessionsByUserId | src/main/java/com/firefist/rag_chat_service/service/ChatSessionService.java:36-38 | exactly the stored sessions owned by the user, deleted ones included |
| Retrieval.MockResults | src/main/java/com/firefist/rag_chat_service/service/retrieval/MockRetrievalService.java:15-23 | `topK` results (none when `topK` is not positive); result `i` has the snippet and source of rank `i + 1` |
| Retrieval.Retrieve | src/main/java/com/firefist/rag_chat_service/service/retrieval/MockRetrievalService.java:15-23 | the counting loop returns exactly `MockResults` |
| Retrieval.RetrievalService.constructor | src/main/java/com/firefist/rag_chat_service/service/ChatMessageService.java:26 | the bean answers with the given function and has received no call |
| Retrieval.RetrievalService.Retrieve | src/main/java/com/firefist/rag_chat_service/service/retrieval/RetrievalService.java:9 | a call returns what the bean's `retrieve` gives for the query and count, and the call is recorded once, after the earlier ones |
| Retrieval.SnippetQuotesQuery | src/main/java/com/firefist/rag_chat_service/service/retrieval/MockRetrievalService.java:19 | every snippet quotes the query verbatim, at a fixed offset after the rank |
| Retrieval.SourceNamesRank | src/main/java/com/firefist/rag_chat_service/service/retrieval/MockRetrievalService.java:20 | the source is `mock-source-` followed by the rank's digits, which read back as the rank |
| Retrieval.SourcesDistinct | src/main/java/com/firefist/rag_chat_service/service/retrieval/MockRetrievalService.java:18-20 | no two results of one call share a source |
| LlmClient.LlmClientBean.constructor | src/main/java/com/firefist/rag_chat_service/service/ChatMessageService.java:27 | the client answers with the given function and has received no call |
| LlmClient.LlmClientBean.Generate | src/main/java/com/firefist/rag_chat_service/service/llm/LlmClient.java:9 | a call returns what the client's `generate` gives for the message and snippets, and the call is recorded once, after the earlier ones |
| MockLlm.Reply | src/main/java/com/firefist/rag_chat_service/service/llm/MockLlmClientService.java:22-28 | with no snippets the reply ends at the context heading; a single snippet follows the heading with no delimiter |
| MockLlm.Generate | src/main/java/com/firefist/rag_chat_service/service/llm/MockLlmClientService.java:20-31 | the StringJoiner loop yields `Reply` (introduction, message, context heading, snippets one per paragraph) under `mock-model-1.0` |
| MockLlm.GuardedGenerate | src/main/java/com/firefist/rag_chat_service/service/llm/MockLlmClientService.java:19-41 | a permitted call replies with `Reply`, and a refused one with the rate-limited text; the model is always `mock-model-1.0` |
| MockLlm.ReplyQuotesMessage | src/main/java/com/firefist/rag_chat_service/service/llm/MockLlmClientService.java:27-28 | the message sits right after the introduction, followed by the context heading |
| MockLlm.ReplyWithoutSnippets | src/main/java/com/firefist/rag_chat_service/service/llm/MockLlmClientService.java:22-28 | with no snippets the reply ends with `context:` and a newline |
| MockLlm.ReplyKeepsSnippetOrder | src/main/java/com/firefist/rag_chat_service/service/llm/MockLlmClientService.java:22-28 | every snippet appears in the reply, and each one ends before the next begins |
| OpenAiLlm.Get | src/main/java/com/firefist/rag_chat_service/service/llm/OpenAiLlmClient.java:111-134 | a lookup finds a non-null value stored under the key, and finds nothing when no entry has the key |
| OpenAiLlm.GetReadsLastEntry | src/main/java/com/firefist/rag_chat_service/service/llm/OpenAiLlmClient.java:111-134 | a lookup reads the last entry with the key, since a later entry of a decoded map replaces an earlier one: that entry's value, or nothing when it is JSON null |
| OpenAiLlm.GetSkipsOtherKeys | src/main/java/com/firefist/rag_chat_service/service/llm/OpenAiLlmClient.java:111 | entries with other keys after the matching ones do not change a lookup |
| OpenAiLlm.FindLast | src/main/java/com/firefist/rag_chat_service/service/llm/OpenAiLlmClient.java:111 | the index found has the key and no later entry below the bound has it; none is found only when no entry below the bound has the key |
| OpenAiLlm.Render | src/main/java/com/firefist/rag_chat_service/service/llm/OpenAiLlmClient.java:121-135 | the `toString()` of a decoded value: a list prints in brackets, an object in braces (each key once, at its first position, with its last entry's value, as the `LinkedHashMap` Jackson decodes into holds it; see `RenderDistinctKeys` and `RenderRepeatedKey`) |
| OpenAiLlm.RenderDistinctKeys | src/main/java/com/firefist/rag_chat_service/service/llm/OpenAiLlmClient.java:121-135 | an object without repeated keys prints every entry as `key=value`, in document order |
| OpenAiLlm.RenderRepeatedKey | src/main/java/com/firefist/rag_chat_service/service/llm/OpenAiLlmClient.java:121-135 | `{"a":"x","a":"y"}` prints as `{a=y}` |
| OpenAiLlm.ChoicesText | src/main/java/com/firefist/rag_chat_service/service/llm/OpenAiLlmClient.java:111-129 | only a non-empty `choices` list yields a text (which place it is read from is stated by `ChoicesFollowCandidates`) |
| OpenAiLlm.TopLevelText | src/main/java/com/firefist/rag_chat_service/service/llm/OpenAiLlmClient.java:131-136 | the top-level `text` wins when present; with neither `text` nor `content` the result is "LLM: could not parse response" |
| OpenAiLlm.ParseGeneratedText | src/main/java/com/firefist/rag_chat_service/service/llm/OpenAiLlmClient.java:109-137 | a text found under `choices` is the answer, and a body without `choices` falls back to the top-level fields (the whole order of places is stated by `ParseFollowsCandidates`) |
| OpenAiLlm.ChoicesFollowCandidates | src/main/java/com/firefist/rag_chat_service/service/llm/OpenAiLlmClient.java:110-130 | the look into `choices` tries `choices[0].message.content`, then `choices[0].text`, then a string `choices[0]`, in that order |
| OpenAiLlm.TopLevelFollowsCandidates | src/main/java/com/firefist/rag_chat_service/service/llm/OpenAiLlmClient.java:131-136 | the fallback tries top-level `text`, then `content`, then returns the fixed could-not-parse text |
| OpenAiLlm.ParseFollowsCandidates | src/main/java/com/firefist/rag_chat_service/service/llm/OpenAiLlmClient.java:109-137 | the parser returns the text at the first usable place in a five-entry table of places to look |
| OpenAiLlm.ParseChatCompletion | src/main/java/com/firefist/rag_chat_service/service/llm/OpenAiLlmClient.java:104-121 | a chat-completion body yields its first choice's message content verbatim |
| OpenAiLlm.MessagesFor | src/main/java/com/firefist/rag_chat_service/service/llm/OpenAiLlmClient.java:58-71 | the system prompt comes first and the user message last; a context entry holding the joined snippets sits between them exactly when there are snippets |
| OpenAiLlm.OutcomeText | src/main/java/com/firefist/rag_chat_service/service/llm/OpenAiLlmClient.java:88-100 | a 2xx response with a body is parsed; any other response reports its status; an exception gives "LLM request failed: " followed by its message, or by "null" when it has none |
| OpenAiLlm.OpenAiLlmClient.constructor | src/main/java/com/firefist/rag_chat_service/service/llm/OpenAiLlmClient.java:34-47 | keeps the key and endpoint; the model defaults to `gpt-4o-mini` |
| OpenAiLlm.OpenAiLlmClient.BuildMessages | src/main/java/com/firefist/rag_chat_service/service/llm/OpenAiLlmClient.java:58-71 | builds exactly `MessagesFor` |
| OpenAiLlm.OpenAiLlmClient.Generate | src/main/java/com/firefist/rag_chat_service/service/llm/OpenAiLlmClient.java:55-101 | a null message throws (no reply); otherwise the reply text is `OutcomeText` of the one request posted, under the configured model |
| OpenAiLlm.OpenAiLlmClient.GuardedGenerate | src/main/java/com/firefist/rag_chat_service/service/llm/OpenAiLlmClient.java:143-146 | a refused call, or one that throws, gets the unavailable text; any other call gets `Generate`'s reply |
| MessageService.SnippetsOf | src/main/java/com/firefist/rag_chat_service/service/ChatMessageService.java:77-79 | the snippets are the results' snippet texts, in rank order |
| MessageService.NextSequenceNumber | src/main/java/com/firefist/rag_chat_service/service/ChatMessageService.java:94 | null stays null; otherwise the next `long`, with the largest value wrapping round to the smallest |
| MessageService.JoinedContext | src/main/java/com/firefist/rag_chat_service/service/ChatMessageService.java:91 | no snippets store an empty context, and one snippet is stored as it is (the rule only goes between neighbours) |
| MessageService.InboundRow | src/main/java/com/firefist/rag_chat_service/service/ChatMessageService.java:65-71 | the inbound row keeps the request's sender, content, retrieved context and sequence number, under the session, with the fresh id and clock reading |
| MessageService.AssistantRow | src/main/java/com/firefist/rag_chat_service/service/ChatMessageService.java:85-94 | the reply row: sender ASSISTANT, the generated text, a stored context, and the inbound sequence number plus one (null stays null) |
| MessageService.Appended | src/main/java/com/firefist/rag_chat_service/service/ChatMessageService.java:64-97 | a USER turn stores two rows and any other turn one, the first always the inbound row, all under the session |
| MessageService.SessionMessages | src/main/java/com/firefist/rag_chat_service/service/ChatMessageService.java:46 | only rows of the session, and a row is listed exactly when the store holds it under the session (counts and order are stated by the two lemmas below) |
| MessageService.SessionMessagesMultiset | src/main/java/com/firefist/rag_chat_service/service/ChatMessageService.java:46 | each row of the session appears as many times as the store holds it, and no row of another session appears |
| MessageService.SessionMessagesAppend | src/main/java/com/firefist/rag_chat_service/service/ChatMessageService.java:46 | store order is kept: the messages of a store `a + b` are those of `a` followed by those of `b` |
| MessageService.NonUserTurn | src/main/java/com/firefist/rag_chat_service/service/ChatMessageService.java:64-101 | a non-USER turn stores only the inbound message, with the request's fields, and neither bean receives a call (`RetrievalsOf` and `GenerationsOf` are empty) |
| MessageService.UserTurn | src/main/java/com/firefist/rag_chat_service/service/ChatMessageService.java:73-97 | a USER turn stores the inbound row and then the reply: ASSISTANT, the generator's text, the joined snippets and the next sequence number; the retrieval bean receives one call, for the message and three snippets, and the LLM client one call, for the message and those snippets |
| MessageService.UserTurnFits | src/main/java/com/firefist/rag_chat_service/model/ChatMessage.java:30 | both rows of a USER turn fit the 32-character sender column |
| MessageService.ContextRoundTrip | src/main/java/com/firefist/rag_chat_service/service/ChatMessageService.java:91 | splitting the stored context at the rule gives back the snippets, when no snippet lets a rule start inside it |
| MessageService.ContextRoundTripWithoutNewline | src/main/java/com/firefist/rag_chat_service/service/ChatMessageService.java:91 | snippets without a line break always split back out of the stored context |
| MessageService.ContextRoundTripNeedsSeparable | src/main/java/com/firefist/rag_chat_service/service/ChatMessageService.java:91 | "no snippet contains the rule" is not enough: two such snippets split back into different ones |
| MessageService.WorkedExample | src/main/java/com/firefist/rag_chat_service/service/ChatMessageService.java:73-97 | three snippets and sequence number 5 give a reply with the three snippets joined by rules and sequence number 6 |
| MessageService.ExampleContext | src/main/java/com/firefist/rag_chat_service/service/ChatMessageService.java:91 | the snippets "ctx-1", "ctx-2", "ctx-3" are stored as one context with a rule between neighbours |
| MessageService.SessionMessagesSorted | src/main/java/com/firefist/rag_chat_service/service/ChatMessageService.java:46 | a session's messages stay ascending by creation instant |
| MessageService.ChatMessageService.constructor | src/main/java/com/firefist/rag_chat_service/service/ChatMessageService.java:32-39 | keeps the two repositories, the retrieval bean and the LLM client |
| MessageService.ChatMessageService.AddMessage | src/main/java/com/firefist/rag_chat_service/service/ChatMessageService.java:59-102 | no session table change. A missing or deleted session stores nothing and neither bean is called. Otherwise the retrieval bean and the LLM client receive exactly the calls `RetrievalsOf` and `GenerationsOf` list, and the rows appended are `Appended` when they fit (the result is the last one); when they do not fit, nothing is stored |
| MessageService.ChatMessageService.RecordTurn | src/main/java/com/firefist/rag_chat_service/service/ChatMessageService.java:64-101 | on a live session: save, pipeline and commit append exactly `Appended`, or nothing when a row does not fit; the beans receive exactly the calls `RetrievalsOf` and `GenerationsOf` list |
| MessageService.ChatMessageService.RecordUserTurn | src/main/java/com/firefist/rag_chat_service/service/ChatMessageService.java:64-97 | a USER turn: the retrieval bean gets one call for three results, the LLM client one call with their snippets, and the inbound row and the reply are both kept when both fit their columns, neither otherwise; the result is the reply |
| MessageService.ChatMessageService.SaveInbound | src/main/java/com/firefist/rag_chat_service/service/ChatMessageService.java:64-71 | the only pending row is the inbound one, with the request's fields, stamped with the fresh id and the clock reading |
| MessageService.ChatMessageService.AnswerTurn | src/main/java/com/firefist/rag_chat_service/service/ChatMessageService.java:75-97 | the retrieval bean receives one call for the message and three results, the LLM client one call for the message and their snippets, and the pending rows gain exactly the reply row |
| MessageService.ChatMessageService.CommitTurn | src/main/java/com/firefist/rag_chat_service/service/ChatMessageService.java:59 | the transaction keeps all pending rows when every one fits its columns, and none otherwise |
| MessageService.ChatMessageService.SaveReply | src/main/java/com/firefist/rag_chat_service/service/ChatMessageService.java:81-97 | the LLM client receives one call for the message and snippets, and the pending rows gain exactly the reply row built from its answer |
| MessageService.ChatMessageService.GetMessages | src/main/java/com/firefist/rag_chat_service/service/ChatMessageService.java:41-47 | nothing for a missing or deleted session; otherwise the session's messages, ascending by creation instant |
| ApiKeyFilter.AnyEquals | src/main/java/com/firefist/rag_chat_service/security/ApiKeyAuthFilter.java:75 | true exactly when some non-null entry equals the key |
| ApiKeyFilter.IsValidKey | src/main/java/com/firefist/rag_chat_service/security/ApiKeyAuthFilter.java:72-76 | valid exactly when the key is present, not blank and equal to some configured key in a non-null list |
| ApiKeyFilter.NullEntriesIgnored | src/main/java/com/firefist/rag_chat_service/security/ApiKeyAuthFilter.java:75 | dropping the null entries changes no match |
| ApiKeyFilter.PresentedKeyNotTrimmed | src/main/java/com/firefist/rag_chat_service/security/ApiKeyAuthFilter.java:75 | the presented key is not trimmed: a leading space makes it fail |
| ApiKeyFilter.KeyCaseSensitive | src/main/java/com/firefist/rag_chat_service/security/ApiKeyAuthFilter.java:75 | the comparison is case-sensitive |
| ApiKeyFilter.ApiKeyAuthFilter.constructor | src/main/java/com/firefist/rag_chat_service/security/ApiKeyAuthFilter.java:27-30 | keeps the key list and the whitelist |
| ApiKeyFilter.ApiKeyAuthFilter.ShouldNotFilter | src/main/java/com/firefist/rag_chat_service/security/ApiKeyAuthFilter.java:33-44 | skip exactly when some whitelist pattern matches the path; a null whitelist skips nothing |
| ApiKeyFilter.ApiKeyAuthFilter.DoFilterInternal | src/main/java/com/firefist/rag_chat_service/security/ApiKeyAuthFilter.java:47-70 | a preflight request or a valid key: passed on once, response untouched. Otherwise: 401, JSON content type and the fixed body, not passed on |
| ApiKeyFilter.ApiKeyAuthFilter.DoFilter | src/main/java/com/firefist/rag_chat_service/security/ApiKeyAuthFilter.java:33-70 | whitelisted or admitted requests are passed on once with the response untouched; every other request is refused with 401, the JSON content type and the fixed body, and is not passed on |
| ApiKeyConfig.Distinct | src/main/java/com/firefist/rag_chat_service/security/ApiKeyAuthConfig.java:53-65 | the insertion-ordered set holds exactly the elements added |
| ApiKeyConfig.DistinctHasNoDuplicates | src/main/java/com/firefist/rag_chat_service/security/ApiKeyAuthConfig.java:53 | the set holds no element twice |
| ApiKeyConfig.DistinctKeepsFirstOccurrenceOrder | src/main/java/com/firefist/rag_chat_service/security/ApiKeyAuthConfig.java:53-65 | the set's elements keep the order of their first addition |
| ApiKeyConfig.DistinctStartsWithFirst | src/main/java/com/firefist/rag_chat_service/security/ApiKeyAuthConfig.java:53-56 | the first element added is the set's first element |
| ApiKeyConfig.Kept | src/main/java/com/firefist/rag_chat_service/security/ApiKeyAuthConfig.java:59-63 | the parts kept are trimmed, and there are no more of them than parts |
| ApiKeyConfig.KeptMembers | src/main/java/com/firefist/rag_chat_service/security/ApiKeyAuthConfig.java:71-74 | an entry is kept exactly when it is the trim of a non-blank part |
| ApiKeyConfig.KeptKeepsEveryNonBlankPart | src/main/java/com/firefist/rag_chat_service/security/ApiKeyAuthConfig.java:71-74 | one entry per non-blank part: only blanks are dropped, and duplicates stay |
| ApiKeyConfig.ResolvedKeys | src/main/java/com/firefist/rag_chat_service/security/ApiKeyAuthConfig.java:52-66 | the key list holds exactly the offered keys (the trimmed non-blank API_KEY, then the kept parts of the key setting), none twice |
| ApiKeyConfig.ResolvedWhitelist | src/main/java/com/firefist/rag_chat_service/security/ApiKeyAuthConfig.java:68-77 | every pattern is trimmed, and an unset or blank setting gives no patterns |
| ApiKeyConfig.ResolveKeys | src/main/java/com/firefist/rag_chat_service/security/ApiKeyAuthConfig.java:52-66 | the loop over the split parts returns exactly `ResolvedKeys` (the distinct offered keys) |
| ApiKeyConfig.AddEnvKey | src/main/java/com/firefist/rag_chat_service/security/ApiKeyAuthConfig.java:53-56 | the set starts as the distinct keys API_KEY offers: its trim when it is set and not blank, else nothing |
| ApiKeyConfig.AddParts | src/main/java/com/firefist/rag_chat_service/security/ApiKeyAuthConfig.java:59-63 | adding the non-blank parts, trimmed, to a set of distinct keys gives the distinct keys of the offered list followed by the kept parts |
| ApiKeyConfig.ResolveWhitelist | src/main/java/com/firefist/rag_chat_service/security/ApiKeyAuthConfig.java:68-77 | the loop returns exactly the kept parts of the setting, in order |
| ApiKeyConfig.ResolvedKeysShape | src/main/java/com/firefist/rag_chat_service/security/ApiKeyAuthConfig.java:52-66 | the resolved keys are distinct and trimmed, are exactly the offered keys, and keep first-occurrence order |
| ApiKeyConfig.EnvKeyFirst | src/main/java/com/firefist/rag_chat_service/security/ApiKeyAuthConfig.java:54-56 | a non-blank API_KEY, trimmed, is the first key |
| ApiKeyConfig.BlankSettingsGiveNothing | src/main/java/com/firefist/rag_chat_service/security/ApiKeyAuthConfig.java:54-70 | unset or blank settings give no keys and no whitelist |
| ApiKeyConfig.WhitelistEntries | src/main/java/com/firefist/rag_chat_service/security/ApiKeyAuthConfig.java:68-77 | a pattern is whitelisted exactly when it is the trim of a non-blank part |
| ApiKeyConfig.BlankKeyResolved | src/main/java/com/firefist/rag_chat_service/security/ApiKeyAuthConfig.java:54-61 | as written, the setting `"\u0001"` resolves to the blank key `""` |
| ApiKeyConfig.ResolveKeysCorrected | src/main/java/com/firefist/rag_chat_service/security/ApiKeyAuthConfig.java:52-66 | the corrected loop returns exactly `ResolvedKeysCorrected` |
| ApiKeyConfig.AddEnvKeyCorrected | src/main/java/com/firefist/rag_chat_service/security/ApiKeyAuthConfig.java:53-56 | the corrected first step starts the set with API_KEY's trim only when that trim is not blank |
| ApiKeyConfig.AddPartsCorrected | src/main/java/com/firefist/rag_chat_service/security/ApiKeyAuthConfig.java:59-63 | the corrected loop adds a part's trim only when the trim is not blank, giving the distinct non-blank offered keys |
| ApiKeyConfig.CorrectedKeysShape | src/main/java/com/firefist/rag_chat_service/security/ApiKeyAuthConfig.java:52-66 | the corrected keys are distinct, trimmed and never blank: exactly the non-blank offered keys |
| ApiKeyConfig.CorrectionKeepsDecisions | src/main/java/com/firefist/rag_chat_service/security/ApiKeyAuthFilter.java:72-76 | the filter accepts the same keys with either key list |
| ApiKeyConfig.ApiKeyAuthConfig.constructor | src/main/java/com/firefist/rag_chat_service/security/ApiKeyAuthConfig.java:18-32 | defaults: enabled, empty key settings, and the health, Swagger UI and API-docs whitelist |
| ApiKeyConfig.ApiKeyAuthConfig.ApiKeyAuthFilterBean | src/main/java/com/firefist/rag_chat_service/security/ApiKeyAuthConfig.java:34-50 | when disabled: a disabled registration with no filter. When enabled: a new filter over `ResolvedKeys` (what `resolveKeys` returns as written) and the resolved whitelist, registered on `/*` with order 10 |
| Strings.JoinSplit | src/main/java/com/firefist/rag_chat_service/service/ChatMessageService.java:91 | joining the parts of the cutting split (every occurrence cut, empty parts kept) with the same separator gives back the string; Java's `split`, which drops trailing empty parts, is `JavaSplit` and does not round-trip |
| Strings.SplitJoin | src/main/java/com/firefist/rag_chat_service/service/ChatMessageService.java:91 | splitting a join gives back the parts when none lets the separator start inside it |
| Strings.JavaSplitParts | src/main/java/com/firefist/rag_chat_service/security/ApiKeyAuthConfig.java:58 | `split(",")` yields a prefix of the cut parts, dropping only empty trailing ones |
| Strings.JoinContainsPartsInOrder | src/main/java/com/firefist/rag_chat_service/service/ChatMessageService.java:91 | every part occurs in the joined string, in the order given |
| Strings.TrimIdempotent | src/main/java/com/firefist/rag_chat_service/security/ApiKeyAuthConfig.java:61 | trimming twice is trimming once |
| Strings.DecimalRoundTrip | src/main/java/com/firefist/rag_chat_service/service/retrieval/MockRetrievalService.java:19-20 | a rank's decimal digits read back as the rank |

## Left out

- The `score` of a retrieval result and the `temperature` of the OpenAI payload are left out because they are floating point. The `timeoutMs` setting and the RestTemplate it configures are left out for the same reason as the HTTP exchange below.
- HTTP transport, headers and JSON (de)serialisation are not modelled. The exchange is the parameter `post`. A 4xx/5xx usually reaches the client as an exception rather than as a response, and the parameter allows either. JSON numbers are integral here. A decoded object is taken to be the `LinkedHashMap` Jackson builds by default: `Render` prints its keys in document order, a repeated key once with its last value.
- The rate limiter is not modelled. It appears only as the `permitted` decision per call.
- Pagination is not modelled. `getMessages` returns the whole ascending list; a `Pageable` only cuts a window out of it.
- Logging is not modelled.
- Hibernate's dirty checking is not modelled. The model runs @PreUpdate on every `save` of a managed session, but Hibernate skips it when no field changed. A rename to the same title would then keep the old `updatedAt`.
- Retrieval.Retrieve: requires `topK < 2^31 - 1`. For that value the Java loop counter wraps round and the loop never ends.
- SessionService.ChatSessionService.GetSessionsByUserId: the repository method it calls, `findByUserId`, is not declared in ChatSessionRepository. So the source as given does not compile; the model gives it Spring Data's derived-query meaning.
- MessageService.ChatMessageService.AddMessage: the retrieval and LLM beans are fixed per service instance, as Spring injects them. Each bean's answers are a fixed function of the call (`RetrievalService.retrieve`, `LlmClientBean.generate`), so which client and whether the limiter refused are settled by the function passed in. The two call records are separate, so the model does not state that retrieval happens before generation; the generation call's snippets are the retrieved ones.
- MessageService.ChatMessageService.GetMessages: calls are modelled one at a time under a clock that never goes back (the `AllAtOrBefore` preconditions of `AddMessage`), so the store is kept ascending by creation instant and the session's rows are returned in store order. The source instead sorts in the query (`findBySessionOrderByCreatedAtAsc`). Concurrent `addMessage` calls on one session, which may interleave, are not modelled. Messages with equal timestamps come back in insertion order here, where the database's order for ties is unspecified.
- ApiKeyConfig.ApiKeyAuthConfig.ApiKeyAuthFilterBean: registers the filter over the keys as `resolveKeys` returns them, blank key included (see Findings). `ApiKeyConfig.CorrectionKeepsDecisions` shows that the filter makes the same decisions over the corrected list.
- MessageService.ContextRoundTrip: proved only for snippets that let no rule start inside them. "No snippet contains the rule" is not enough (`MessageService.ContextRoundTripNeedsSeparable`).
- Strings.EqualsIgnoreCase: folds ASCII letters only. Java also folds other scripts, which only matters for senders outside ASCII.
- Validation of request bodies (@NotBlank) happens in the controllers and is not modelled. `addMessage` is modelled for any non-null sender and content, blank ones included (the controller's @NotBlank guarantees non-null).

## Findings

| source | as written | input that shows it | evidently intended | confidence | as-written member | corrected member |
|---|---|---|---|---|---|---|
| src/main/java/com/firefist/rag_chat_service/security/ApiKeyAuthConfig.java:54-61 | a key is tested with `isBlank()` before `trim()`; trim removes U+0000..U+0020 but isBlank does not count U+0001 as whitespace | `API_KEY` or `security.apikey.keys` set to `"\u0001"` resolves to the key `""` | every resolved key is trimmed and non-blank (test after trimming) | not executed; harmless for decisions, since a blank presented key is refused before comparison (`ApiKeyConfig.CorrectionKeepsDecisions`) | ApiKeyConfig.BlankKeyResolved | ApiKeyConfig.ResolveKeysCorrected |
