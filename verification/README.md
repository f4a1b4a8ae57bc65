# PolyglotAI conversation kernel, in Dafny

PolyglotAI is a language-learning chat: a student talks with an AI
"teacher" in a target language. This project models the domain kernel and
the application layer around it:

- the value objects: CEFR levels, language codes, roles, statuses,
  creativity levels, generation styles and the teacher profile;
- the entities: chat messages, conversations, users and vocabulary items.
  Entity identity is by class and id;
- the in-memory conversation repository and its paginated, newest-first
  student listing;
- the two variants of the "send a message" use case and the "create a
  conversation" use case;
- the conversion of a history into OpenAI chat messages, and the check on
  the provider's reply;
- the Ollama configuration's base-URL validation.

The model follows the source's form:

- Pure value logic is written as datatypes and functions.
- Entities whose methods update their own fields are Dafny classes
  (`Conversation`, `ChatMessage`, `User`, `VocabularyItem`, the repository
  and the use cases). Each such method is proved against a function on a
  state value (`AddMessageStep`, `AssessLevelStep`, `ReviewStep`, ...).
- The promised properties are lemmas about those functions.
- The chat provider is a `TeacherGenerator` object. It holds a fixed reply
  function and records every request it receives.

Identifiers (UUIDs) are natural numbers and timestamps are integers. The
caller passes every fresh identifier and every clock reading as a
parameter.

The conversation module embeds its own `ChatMessage` class. It is the same
code as the standalone one (same content check, same construction), so it
is modelled once, by `ChatMessages`. The standalone `Role` and `Status`
enumerations are likewise the same values as those in `chat_options.py`
and are modelled once, by `ChatOptions`.

## Model

| member | source | states |
|---|---|---|
| Cefr.Rank | src/core/domain/value_objects/cefr_level.py:73-78 | the rank lies in 1..6 and is one plus the level's position in declaration order |
| Cefr.RankInjective | src/core/domain/value_objects/cefr_level.py:73-78 | two levels have the same rank exactly when they are the same level |
| Cefr.ExactlyOneBand | src/core/domain/value_objects/cefr_level.py:45-57 | each level is in exactly one of beginner, intermediate and advanced; the bands are ranks 1-2, 3-4 and 5-6 |
| Cefr.AdjacencyProperties | src/core/domain/value_objects/cefr_level.py:80-82 | adjacency is symmetric and irreflexive, and holds exactly for levels one rank up or down |
| Cefr.LessIsStrictTotalOrder | src/core/domain/value_objects/cefr_level.py:84-87 | `<` is irreflexive, transitive, asymmetric and total on distinct levels |
| Cefr.OrderedIsIncreasing | src/core/domain/value_objects/cefr_level.py:29-42 | an earlier member in declaration order is less than a later one |
| Cefr.CompareLess | src/core/domain/value_objects/cefr_level.py:84-87 | comparing with a non-level gives a TypeError (`NotImplemented` on both sides); otherwise the answer is the comparison of ranks |
| Cefr.EqualsOperand | src/core/domain/value_objects/cefr_level.py:14-34 | a level equals an operand exactly when that operand is the same level; other types are never equal |
| ChatOptions.RolePredicates | src/core/domain/value_objects/chat_options.py:11-31 | a role is exactly one of student and teacher, and each predicate identifies its member |
| ChatOptions.StatusPredicates | src/core/domain/value_objects/chat_options.py:34-61 | writable means active; a deleted conversation is neither active, archived nor writable |
| ChatOptions.CreativityLevel.Value | src/core/domain/value_objects/chat_options.py:80-93 | a creativity level's value lies in 0..3 |
| ChatOptions.CreativityFromValue | src/core/domain/value_objects/chat_options.py:80-93 | `CreativityLevel(n)` exists exactly for 0 <= n <= 3, and it has value n |
| ChatOptions.CreativityRoundTrip | src/core/domain/value_objects/chat_options.py:80-93 | converting a level to its value and back gives the level |
| ChatOptions.DefaultProfileChoices | src/core/domain/value_objects/chat_options.py:96-106 | a profile built without arguments is MODERATE and CONVERSATIONAL, and its description uses those two entries |
| ChatOptions.ReprLayout | src/core/domain/value_objects/chat_options.py:109-135 | the profile description is the header, then the style instruction, the tone marker and the tone, in that order and nothing else |
| Entities.EqSameClass | src/core/domain/entities/base.py:39-48 | within one class, both `__eq__` and the operator `==` are equality of ids, whatever the creation time |
| Entities.DifferentIdsNeverEqual | src/core/domain/entities/base.py:39-48 | entities with different ids are unequal in both directions, under `__eq__` and under `==` |
| Entities.UnrelatedClassesNeverEqual | src/core/domain/entities/base.py:39-48 | instances of two unrelated classes are unequal in both directions even with the same id, under `__eq__` and under `==` |
| Entities.PyEqIsSameClassAndId | src/core/domain/entities/base.py:39-48 | the operator `==` (which consults a subclass operand's `__eq__` first) holds exactly for the same class and the same id, and is symmetric |
| Entities.SubclassEqualityGoesThroughSubclass | src/core/domain/entities/base.py:39-58 | an aggregate root's `__eq__` accepts a conversation with its id and the conversation's refuses it, yet `==` is false in both orders |
| Entities.EqualEntitiesHashEqually | src/core/domain/entities/base.py:39-54 | entities equal under `==` have equal hashes |
| Entities.SetOf | src/core/domain/entities/base.py:50-54 | building a Python set keeps only members of the input |
| Entities.SetOfIsPythonSet | src/core/domain/entities/base.py:39-54 | every input entity is matched in the set by an equal-hash member equal to it under `==`, and no two members are equal under `==` |
| Entities.SubclassInstancesStayApartInSet | src/core/domain/entities/base.py:39-58 | an aggregate root and a conversation with the same id are two members of a set |
| Entities.SetOfDeduplicatesById | src/core/domain/entities/base.py:39-54 | a set of same-class entities has the same ids as the input, each exactly once |
| Entities.SetSizeIsIdCount | src/core/domain/entities/base.py:39-54 | a set of same-class entities has as many members as distinct ids |
| Entities.ThreeEntitiesTwoIds | src/core/domain/entities/base.py:50-54 | three entities sharing two ids make a set of two |
| ChatMessages.ValidateContent | src/core/domain/entities/chat_message.py:88-101 | content passes exactly when it is neither empty nor whitespace-only; otherwise it fails with the content error |
| ChatMessages.AuthorshipExclusive | src/core/domain/entities/chat_message.py:43-51 | exactly one of "from student" and "from teacher" holds, chosen by the role |
| ChatMessages.NewMessage | src/core/domain/entities/chat_message.py:55-73 | a message is built exactly when the content is not blank; it carries the id, role, untrimmed content and `now`; otherwise the content error |
| ChatMessages.ChatMessage.constructor | src/core/domain/entities/chat_message.py:103-110 | a message is constructed only with non-blank content and holds exactly the given fields |
| ChatMessages.ChatMessage.CreateNew | src/core/domain/entities/chat_message.py:55-73 | a fresh valid message with the given fields, or the content error exactly when the content is blank |
| ChatMessages.ChatMessage.EditContent | src/core/domain/entities/chat_message.py:75-86 | the new content replaces the old exactly when it is not blank; a blank one fails and leaves the content; validity is kept |
| Languages.NewLanguage | src/core/domain/value_objects/language.py:28-41 | the code is lower-cased and stripped, and accepted exactly when the result is two alphabetic characters; otherwise the ISO-code error carries the normalised code |
| Languages.BuiltLanguageHasIsoShape | src/core/domain/value_objects/language.py:28-41 | every accepted code is two lower-case letters |
| Languages.NormalizeIdempotent | src/core/domain/value_objects/language.py:38-41 | rebuilding a language from its own code gives the same language |
| Languages.EqualByNormalizedCode | src/core/domain/value_objects/language.py:28-41 | two accepted inputs give equal languages exactly when they normalise to the same code |
| Languages.PaddedUpperCaseEqualsLowerCase | src/core/domain/value_objects/language.py:38 | `Language(" FR ")` equals `Language("fr")` |
| Conversations.CleanTitle | src/core/domain/entities/conversation.py:221-227 | the title is stripped and accepted exactly when 1 to 100 characters remain; otherwise the empty-title or too-long error (with length and maximum) |
| Conversations.CleanTitleIdempotent | src/core/domain/entities/conversation.py:319-324 | an accepted title is a legal stored title, and cleaning it again gives the same result |
| Conversations.TitleLengthBoundary | src/core/domain/entities/conversation.py:225-227 | a title of exactly 100 characters is accepted; one of 101 is refused with length 101 and maximum 100 |
| Conversations.CheckNew | src/core/domain/entities/conversation.py:218-227 | equal languages fail with the pair error before the title is looked at; otherwise the title check decides |
| Conversations.NewStateProperties | src/core/domain/entities/conversation.py:190-237 | creation succeeds exactly for distinct languages and a title stripping to 1..100 characters; the new conversation is active, empty, stamped `now`, owned as requested, holds the stripped title and is well-formed |
| Conversations.AddMessageRefusedUnlessWritable | src/core/domain/entities/conversation.py:255-256 | an archived or deleted conversation refuses a message with the not-writable error and is left exactly as it was |
| Conversations.AddMessageAppendsOne | src/core/domain/entities/conversation.py:258-267 | on an active conversation with non-blank content, exactly one message with the given fields is appended at the end and returned; earlier messages keep their order; only `lastActivityAt` otherwise changes |
| Conversations.AddMessageBlankTouchesOnly | src/core/domain/entities/conversation.py:258-265 | blank content on an active conversation fails with the content error after the conversation has been touched |
| Conversations.AddMessageSucceedsIff | src/core/domain/entities/conversation.py:239-268 | adding succeeds exactly when the conversation is writable and the content not blank; the history grows by one at its end on success and is unchanged otherwise |
| Conversations.ArchiveDeleteUnconditional | src/core/domain/entities/conversation.py:279-301 | archive and delete set their status whatever the current one, move `lastActivityAt` to `now` and change nothing else |
| Conversations.ModifyTitleProperties | src/core/domain/entities/conversation.py:303-327 | renaming succeeds exactly on a writable conversation with a title stripping to 1..100 characters; it then stores the stripped title and touches; failure changes nothing; not-writable is reported first |
| Conversations.AddMessagePreservesWellFormed | src/core/domain/entities/conversation.py:239-268 | adding a message keeps distinct languages, a legal title and non-blank messages |
| Conversations.ModifyTitlePreservesWellFormed | src/core/domain/entities/conversation.py:303-327 | renaming keeps a conversation well-formed |
| Conversations.LifecyclePreservesWellFormed | src/core/domain/entities/conversation.py:270-301 | touching, archiving and deleting keep a conversation well-formed |
| Conversations.NoResurrection | src/core/domain/entities/conversation.py:239-327 | no operation makes an archived or deleted conversation writable again |
| Conversations.Conversation.Restore | src/core/domain/entities/conversation.py:142-148 | the dataclass constructor holds exactly the given state |
| Conversations.Conversation.CreateNew | src/core/domain/entities/conversation.py:190-237 | a fresh, valid conversation in the state `NewState` describes, or that function's error |
| Conversations.Conversation.Messages | src/core/domain/entities/conversation.py:180-182 | the history as stored, in order |
| Conversations.Conversation.MessageCount | src/core/domain/entities/conversation.py:185-187 | the number of messages in the history |
| Conversations.Conversation.Touch | src/core/domain/entities/conversation.py:270-277 | only `lastActivityAt` changes, to `now` |
| Conversations.Conversation.AddMessage | src/core/domain/entities/conversation.py:239-268 | the result and new state are those of `AddMessageStep`; a non-writable conversation is unchanged; validity is kept |
| Conversations.Conversation.Archive | src/core/domain/entities/conversation.py:279-289 | the new state is `ArchiveStep` of the old one; validity is kept |
| Conversations.Conversation.Delete | src/core/domain/entities/conversation.py:291-301 | the new state is `DeleteStep` of the old one; validity is kept |
| Conversations.Conversation.ModifyTitle | src/core/domain/entities/conversation.py:303-327 | the outcome and new state are those of `ModifyTitleStep`; a failure changes nothing; validity is kept |
| Repository.RequireFound | src/core/ports/repositories/conversation.py:42-58 | `get_by_id` returns the conversation found, or the not-found error naming "Conversation" and the id |
| Repository.OwnedBy | tests/doubles/fakes/in_memory_conversation_repository.py:61-64 | exactly the conversations of the student are kept |
| Repository.OwnedByKeepsDistinctIds | tests/doubles/fakes/in_memory_conversation_repository.py:61-64 | filtering keeps ids distinct |
| Repository.InsertNewest | tests/doubles/fakes/in_memory_conversation_repository.py:65 | insertion adds exactly one element, as a multiset |
| Repository.InsertNewestSorted | tests/doubles/fakes/in_memory_conversation_repository.py:65 | insertion keeps a list sorted newest first |
| Repository.SortNewestFirst | tests/doubles/fakes/in_memory_conversation_repository.py:65 | sorting is a permutation of its input |
| Repository.SortNewestFirstSorted | tests/doubles/fakes/in_memory_conversation_repository.py:65 | the sorted list has non-increasing creation times |
| Repository.SortKeepsDistinctIds | tests/doubles/fakes/in_memory_conversation_repository.py:65 | sorting keeps ids distinct |
| Repository.SliceBound | tests/doubles/fakes/in_memory_conversation_repository.py:66 | a Python slice bound clamps into 0..n and counts a negative bound from the end |
| Repository.PySlice | tests/doubles/fakes/in_memory_conversation_repository.py:66 | a slice is never longer than its input |
| Repository.PageShape | tests/doubles/fakes/in_memory_conversation_repository.py:66 | with non-negative offset and limit, a page is the run of at most `limit` elements from `offset`, empty past the end |
| Repository.NegativeLimitCountsFromEnd | tests/doubles/fakes/in_memory_conversation_repository.py:66 | with offset 0 and limit -1, the page drops only the last conversation |
| Repository.ToSummary | tests/doubles/fakes/in_memory_conversation_repository.py:69-77 | a summary copies id, creation, activity and status, and falls back to "Conversation" for an empty title |
| Repository.SummaryOfWellFormedKeepsTitle | tests/doubles/fakes/in_memory_conversation_repository.py:69-77 | a well-formed conversation's summary carries its own title |
| Repository.StudentListing | tests/doubles/fakes/in_memory_conversation_repository.py:61-65 | the listing is a permutation of the student's conversations |
| Repository.StudentListingNewestFirst | tests/doubles/fakes/in_memory_conversation_repository.py:65 | the listing is newest first |
| Repository.StudentListingMembers | tests/doubles/fakes/in_memory_conversation_repository.py:61-65 | the listing holds exactly the stored conversations owned by the student |
| Repository.StudentListingLength | tests/doubles/fakes/in_memory_conversation_repository.py:61-65 | the listing has as many entries as the student owns |
| Repository.StudentListingDistinctIds | tests/doubles/fakes/in_memory_conversation_repository.py:61-65 | the listing has no duplicate ids |
| Repository.StudentConversations | tests/doubles/fakes/in_memory_conversation_repository.py:54-67 | the page is the summaries of the sliced listing, element by element |
| Repository.PageLength | tests/doubles/fakes/in_memory_conversation_repository.py:54-67 | a page has max(0, min(limit, owned - offset)) entries |
| Repository.PageElements | tests/doubles/fakes/in_memory_conversation_repository.py:54-67 | entry k of a page is the summary of listing entry offset + k |
| Repository.StudentConversationsOwned | tests/doubles/fakes/in_memory_conversation_repository.py:54-67 | every summary on a page is that of a stored conversation owned by the student, for any offset and limit |
| Repository.StudentConversationsNewestFirst | tests/doubles/fakes/in_memory_conversation_repository.py:54-67 | every page is newest first, for any offset and limit |
| Repository.DisjointPagesShareNoId | tests/doubles/fakes/in_memory_conversation_repository.py:54-67 | two pages whose ranges do not overlap share no conversation |
| Repository.DefaultPageIsNewestTwenty | tests/doubles/fakes/in_memory_conversation_repository.py:54-67 | without a limit and an offset, the page is the summaries of the student's 20 newest conversations, or all of them when there are fewer |
| Repository.InMemoryConversationRepository.constructor | tests/doubles/fakes/in_memory_conversation_repository.py:27-28 | a new repository is empty and valid |
| Repository.InMemoryConversationRepository.Values | tests/doubles/fakes/in_memory_conversation_repository.py:61 | the stored conversations, once each, with distinct ids |
| Repository.InMemoryConversationRepository.Save | tests/doubles/fakes/in_memory_conversation_repository.py:34-36 | the conversation's state is stored under its id, replacing any earlier one; a new id goes to the end of insertion order; validity is kept |
| Repository.InMemoryConversationRepository.FindById | tests/doubles/fakes/in_memory_conversation_repository.py:38-42 | none exactly when the id is not stored; otherwise a fresh copy of the stored state |
| Repository.InMemoryConversationRepository.GetById | src/core/ports/repositories/conversation.py:42-58 | the not-found error exactly when the id is not stored; otherwise a fresh copy of the stored state |
| Repository.InMemoryConversationRepository.Remove | tests/doubles/fakes/in_memory_conversation_repository.py:44-48 | removing a missing id fails with not-found and changes nothing; otherwise the entry is gone and validity is kept |
| Repository.InMemoryConversationRepository.GetStudentConversations | tests/doubles/fakes/in_memory_conversation_repository.py:54-67 | the page is `StudentConversations` over the stored values, with limit 20 and offset 0 when not given |
| Repository.Without | tests/doubles/fakes/in_memory_conversation_repository.py:44-48 | removing an id from the insertion order keeps every other id and keeps the order free of duplicates |
| Repository.WithoutKeepsOrder | tests/doubles/fakes/in_memory_conversation_repository.py:44-48 | deleting a key filters the insertion order while keeping the relative order of the rest: it distributes over any split of the order, and a single key is dropped exactly when it is the deleted one |
| UseCases.TeacherGenerator.GetTeacherResponse | src/application/commands/conversations.py:170-175 | the provider records the request and answers with its reply function |
| UseCases.Lookup | src/application/commands/conversations.py:148 | the stored state under the id, or none when the id is absent |
| UseCases.RequestFor | src/application/commands/conversations.py:163-175 | the request carries the conversation's history, the command's profile and, for the current use case only, the two languages |
| UseCases.ReplyOnAsksOnce | src/application/commands/conversations.py:163-190 | after the student's message, the provider is asked exactly once, and only success saves |
| UseCases.ReplyOnSucceedsIff | src/application/commands/conversations.py:170-187 | the second half succeeds exactly when the provider answers with non-blank text |
| UseCases.ReplyOnSuccess | src/application/commands/conversations.py:182-197 | on success the teacher's message with the provider's text is appended and the result names it |
| UseCases.ReplyOnKeepsWellFormed | src/application/commands/conversations.py:182-190 | the state saved after the teacher's answer is well-formed |
| UseCases.SendMessageToMissingConversation | src/application/commands/conversations.py:148 | a missing conversation fails with not-found before any request, and nothing is saved |
| UseCases.SendMessageToClosedConversation | src/application/commands/conversations.py:155-160 | an archived or deleted conversation fails with not-writable before any request, and nothing is saved |
| UseCases.SendBlankMessage | src/application/commands/conversations.py:155-160 | a blank student message fails with the content error before any request, and nothing is saved |
| UseCases.SavedExactlyOnSuccess | src/application/commands/conversations.py:148-197 | the conversation is saved exactly when the call succeeds |
| UseCases.GeneratorAskedOnlyAfterStudentMessage | src/application/commands/conversations.py:155-175 | the provider is asked at most once, and exactly when the student's message was accepted |
| UseCases.GeneratorSeesStudentMessage | src/application/commands/conversations.py:163-175 | the provider sees the earlier history plus the student's message, the command's profile, and the languages only in the current use case; its failure is the call's failure |
| UseCases.SendMessageSuccess | src/application/commands/conversations.py:155-197 | on success the saved conversation is the loaded one plus the student's and then the teacher's message, last active at the teacher's time; the result names both messages and carries the reply |
| UseCases.SendMessageSucceedsIff | src/application/commands/conversations.py:148-197 | a call succeeds exactly when the conversation exists and is active, the student's text is not blank and the provider answers with non-blank text |
| UseCases.SendMessageKeepsWellFormed | src/application/commands/conversations.py:155-190 | what a successful call saves is well-formed when what it loaded was |
| UseCases.ReplyFlow | src/application/commands/conversations.py:163-187 | asking the provider and appending its answer does what `ReplyOn` describes, to the conversation and to the provider's request log |
| UseCases.ExchangeFlow | src/application/commands/conversations.py:155-187 | adding both messages does what `ExchangeOn` describes |
| UseCases.SendMessageFlow | src/application/commands/conversations.py:148-197 | the result and requests are those of `SendMessageSpec`; the repository is written exactly with the saved state; its validity is kept |
| UseCases.CreateConversationUseCase.Execute | src/application/commands/conversations.py:51-90 | the conversation `NewState` describes is saved and its id returned, a new id going to the end of the insertion order; on failure the repository is unchanged |
| UseCases.SendMessageUseCase.Execute | src/application/commands/conversations.py:123-197 | `SendMessageFlow` with the conversation's languages passed to the provider |
| UseCases.LegacySendMessageUseCase.Execute | src/application/commands/use_cases/send_message.py:47-118 | `SendMessageFlow` with history and profile only |
| OpenAIFormat.SdkRole | src/infrastructure/ai/base_openai_client.py:90-97 | a student maps to "user" and a teacher to "assistant" |
| OpenAIFormat.ConvertToOpenAIFormat | src/infrastructure/ai/base_openai_client.py:72-99 | the system prompt comes first, then one entry per message in order, with the mapped role and the content unchanged |
| OpenAIFormat.OnlyFirstEntryIsSystem | src/infrastructure/ai/base_openai_client.py:86-97 | no converted message is a system entry, and "user" marks exactly the student's messages |
| OpenAIFormat.CheckReply | src/infrastructure/ai/base_openai_client.py:135-142 | no choice or no message is a format error; missing or blank content is an empty-response error; otherwise the stripped content |
| OpenAIFormat.AcceptedReplyIsCleanContent | src/infrastructure/ai/base_openai_client.py:135-142 | an accepted reply is non-blank, already stripped, and valid message content |
| OpenAIFormat.ReplyFailuresAreTeacherErrors | src/infrastructure/ai/base_openai_client.py:135-142 | every refused reply is a teacher-response error with one of the two causes |
| Ollama.ValidateBaseUrl | src/infrastructure/ai/config/ollama.py:32-38 | accepted exactly with an http:// or https:// prefix; the result is the input without its trailing slashes; otherwise the base-URL error |
| Ollama.NewOllamaConfig | src/infrastructure/ai/config/ollama.py:24-38 | a configuration exists exactly when the base URL validates, and it holds the normalised URL and the model |
| Ollama.EndpointShape | src/infrastructure/ai/config/ollama.py:40-43 | the OpenAI-compatible endpoint is the normalised base URL followed by "/v1", with no double slash |
| Ollama.NormalizationIdempotent | src/infrastructure/ai/config/ollama.py:38 | stripping trailing slashes twice is stripping them once |
| Ollama.RevalidationStable | src/infrastructure/ai/config/ollama.py:32-38 | validating a validated URL that still has its scheme gives it back |
| Ollama.BareSchemeLosesItsSlashes | src/infrastructure/ai/config/ollama.py:36-38 | "http://" is accepted as "http:", which would itself be refused |
| Ollama.DefaultsAreValid | src/infrastructure/ai/config/ollama.py:24-43 | the defaults validate, and the endpoint is "http://localhost:11434/v1" |
| Users.NewUser | src/core/domain/entities/user.py:55-76 | a user is created exactly when the languages differ, with the given fields; otherwise the pair error |
| Users.CorrectNativeLanguageProperties | src/core/domain/entities/user.py:78-92 | correction succeeds exactly when the new native language differs from the target; only the native language changes; failure changes nothing |
| Users.SwitchLearningGoalProperties | src/core/domain/entities/user.py:94-108 | switching succeeds exactly when the new target differs from the native language; only the target changes; failure changes nothing |
| Users.AssessLevelProperties | src/core/domain/entities/user.py:110-124 | a level change succeeds exactly for an adjacent level (rank one up or down); re-assessing the same level is refused; failure changes nothing |
| Users.OperationsKeepPairOk | src/core/domain/entities/user.py:78-129 | every operation keeps the native and target languages distinct |
| Users.User.Restore | src/core/domain/entities/user.py:126-129 | the object holds exactly the given state |
| Users.User.CreateNew | src/core/domain/entities/user.py:55-76 | a fresh valid user in the state `NewUser` describes, or its error |
| Users.User.CorrectNativeLanguage | src/core/domain/entities/user.py:78-92 | outcome and new state are those of `CorrectNativeLanguageStep`; validity is kept |
| Users.User.SwitchLearningGoal | src/core/domain/entities/user.py:94-108 | outcome and new state are those of `SwitchLearningGoalStep`; validity is kept |
| Users.User.AssessLevel | src/core/domain/entities/user.py:110-124 | outcome and new state are those of `AssessLevelStep`; validity is kept |
| Vocabulary.ReviewAllCounts | src/core/domain/entities/vocabulary_item.py:81-88 | n reviews add n to the count, leave the last review time, and change nothing else |
| Vocabulary.ReviewAllSnoc | src/core/domain/entities/vocabulary_item.py:81-88 | one more review is one more review step at the end |
| Vocabulary.NewItemAfterReviews | src/core/domain/entities/vocabulary_item.py:58-88 | a new item reviewed n times has count 1 + n, never below 1, and keeps its owner and word |
| Vocabulary.VocabularyItem.CreateNew | src/core/domain/entities/vocabulary_item.py:58-79 | a new item has count 1, was last reviewed at creation, and no reviews recorded |
| Vocabulary.VocabularyItem.MarkAsReviewed | src/core/domain/entities/vocabulary_item.py:81-88 | the new state is one review step from the old; the count stays 1 + the number of reviews |
| Learning.ReviewKeepsSource | src/core/domain/entities/learning.py:107-114 | a review counts once more, records `now`, and keeps the source and the rest |
| Learning.VocabularyItem.CreateNew | src/core/domain/entities/learning.py:82-105 | a new item holds the requested source, has count 1, and no reviews recorded |
| Learning.VocabularyItem.MarkAsReviewed | src/core/domain/entities/learning.py:107-114 | the new state is one review step from the old; the count stays 1 + the number of reviews, never below 1 |

## Left out

- Network I/O to the chat provider is not modelled. The model keeps neither the OpenAI client, its lazy creation, nor the mapping of SDK exceptions to teacher errors. The provider is a function from request to reply, which may be a failure.
- The Ollama client class is left out, along with `from_env` (environment variables), the `temperature` field (floating point) and `model_name`.
- The prompt text sent to the provider is left out beyond the profile's description; the profile itself is passed on.
- HTTP routes, DTO classes and user interfaces are left out. The delete, select and list use cases are covered only by the repository operations they call.
- The student repository is left out, and so is asynchronous scheduling: each awaited call is modelled as one atomic step.
- Strings are sequences of characters. Stripping, lower-casing and the alphabetic test use the ASCII definitions. Python's Unicode whitespace, case mapping and `isalpha` are wider.
- UUIDs are natural numbers and datetimes are integers. The clock and the UUID generator are parameters.
- Lexeme metadata is reduced to a headword and a definition.
- Conversations.Conversation.Messages: `messages` returns a shallow tuple of the same message objects. It is modelled as a sequence of message values, so aliasing of those objects is not captured.
- ChatMessages.ChatMessage.constructor: requires non-blank content. The raise from `__post_init__` on blank content is modelled by `CreateNew`, which returns the content error, and by the `Valid` invariant.
- Conversations.Conversation.Restore: takes every field explicitly. The dataclass defaults (title "Conversation", ACTIVE, no messages) are not modelled as constructor defaults. `create_new` passes the title and relies on the ACTIVE and no-messages defaults; `NewState` writes those two defaults out.
- Users.User.Restore: the dataclass check in `__post_init__` is modelled by `CreateNew` and by the `Valid` invariant, not by the raw constructor.
- Repository.SortNewestFirst: stability of Python's sort among equal creation times is not stated; sortedness and permutation are.
- UseCases.SendMessageFlow: requires a valid repository. A repository's stored entries are keyed by their own ids, which every repository built through its operations satisfies.
- The `ChatProvider` port declares `generate_response(history, tutor_profile)`, but both use cases call `get_teacher_response`. The model follows the use cases.
- Learning.VocabularyItem is modelled as the vocabulary-item record plus its source. It is a separate class, because the source defines it as a separate aggregate root.
- The CEFR level descriptions and the `__repr__` texts of messages and users are display strings and are left out.
- The conversation tests use a `user_id` field and `Role.USER`/`Role.ASSISTANT`, which the conversation code does not define. The model follows the code: an owner `studentId` and the roles STUDENT and TEACHER.
- The delete test expects a deleted conversation to disappear from listings, but the in-memory repository does not filter by status. The model follows the code: `Repository.OwnedBy` filters by owner only.
- The send-message test passes a `repository=` keyword, while the use case's constructor takes `conv_repo`. This concerns only argument naming and leaves the model unchanged.
- `InvalidChatMessageContentError()` is raised without the two arguments its constructor requires. The model treats it as the plain content-validation failure `InvalidChatMessageContent`.
