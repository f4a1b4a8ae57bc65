/**
  The two command use cases around the Conversation aggregate.

  `CreateConversation` builds a conversation and saves it. `SendMessage`
  loads a conversation, appends the student's message, asks the chat
  provider for the teacher's answer given the whole history, appends that
  answer and saves once. Any failure on the way ends the call with that
  failure, and then nothing is saved.

  The clock and the id generator become arguments (`now...`, `...Id`). The
  chat provider is a recording double whose answers are a fixed function of
  the request. The repository is the in-memory one.
 */
module UseCases {

  import opened Errors
  import opened ChatOptions
  import opened Languages
  import opened ChatMessages
  import opened Conversations
  import opened Repository
  import opened Text

  /** What the chat provider is asked for an answer: the history, the teacher
      profile and, when the caller passes them, the conversation's languages. */
  datatype GenerationRequest = GenerationRequest(
    history: seq<Message>,
    profile: TeacherProfile,
    nativeLang: Option<Language>,
    targetLang: Option<Language>)

  /** The chat provider port: it answers each request by `reply` and records
      every request it receives, in order. */
  class TeacherGenerator {
    const reply: GenerationRequest -> Result<string>
    var requests: seq<GenerationRequest>

    constructor (reply: GenerationRequest -> Result<string>)
      ensures this.reply == reply && requests == []
    {
      this.reply := reply;
      requests := [];
    }

    method GetTeacherResponse(request: GenerationRequest) returns (r: Result<string>)
      modifies this
      ensures requests == old(requests) + [request]
      ensures r == reply(request)
    {
      requests := requests + [request];
      r := reply(request);
    }
  }

  datatype CreateConversationCommand = CreateConversationCommand(
    studentId: Uuid,
    title: string,
    nativeLang: Language,
    targetLang: Language)

  datatype SendMessageCommand = SendMessageCommand(
    conversationId: Uuid,
    studentMessage: string,
    creativity: CreativityLevel,
    style: GenerationStyle)

  /** The teacher message's id, the student message's id, the teacher's text. */
  datatype SendMessageResult = SendMessageResult(
    messageId: Uuid,
    studentMessageId: Uuid,
    teacherMessage: string)

  /** What the store holds under `id`, if anything. */
  function Lookup(storage: map<Uuid, ConversationState>, id: Uuid): (r: Option<ConversationState>)
    ensures r.Some? <==> id in storage
    ensures r.Some? ==> r.value == storage[id]
  {
    if id in storage then Some(storage[id]) else None
  }

  /** The request built once the student's message is in: the history as it
      now stands, the profile the command asks for, and the conversation's
      languages when `withLanguages` holds. */
  function RequestFor(s: ConversationState, cmd: SendMessageCommand, withLanguages: bool): (q: GenerationRequest)
    ensures q.history == s.messages && q.profile == TeacherProfile(cmd.creativity, cmd.style)
    ensures withLanguages ==> q.nativeLang == Some(s.nativeLang) && q.targetLang == Some(s.targetLang)
    ensures !withLanguages ==> q.nativeLang.None? && q.targetLang.None?
  {
    var profile := TeacherProfile(cmd.creativity, cmd.style);
    if withLanguages then GenerationRequest(s.messages, profile, Some(s.nativeLang), Some(s.targetLang))
    else GenerationRequest(s.messages, profile, None, None)
  }

  /** The effect of one send-message call: its result, the requests it made
      to the chat provider, and the state it saved, if it saved one. */
  datatype Exchange = Exchange(
    result: Result<SendMessageResult>,
    requests: seq<GenerationRequest>,
    saved: Option<ConversationState>)

  /** One send-message call on the stored conversation `stored`. */
  function SendMessageSpec(stored: Option<ConversationState>, cmd: SendMessageCommand, withLanguages: bool,
                           reply: GenerationRequest -> Result<string>,
                           studentMessageId: Uuid, nowStudent: Timestamp,
                           teacherMessageId: Uuid, nowTeacher: Timestamp): Exchange
  {
    match stored
    case None => Exchange(Failure(ResourceNotFound("Conversation", cmd.conversationId)), [], None)
    case Some(s0) =>
      ExchangeOn(s0, cmd, withLanguages, reply, studentMessageId, nowStudent, teacherMessageId, nowTeacher)
  }

  /** The call once the conversation is loaded: the student's message goes in
      first, and a refusal ends the call there. */
  function ExchangeOn(s0: ConversationState, cmd: SendMessageCommand, withLanguages: bool,
                      reply: GenerationRequest -> Result<string>,
                      studentMessageId: Uuid, nowStudent: Timestamp,
                      teacherMessageId: Uuid, nowTeacher: Timestamp): Exchange
  {
    var asked := AddMessageStep(s0, studentMessageId, nowStudent, Student, cmd.studentMessage);
    if asked.result.Failure? then Exchange(Failure(asked.result.error), [], None)
    else ReplyOn(asked.state, cmd, withLanguages, reply, studentMessageId, teacherMessageId, nowTeacher)
  }

  /** The call once the student's message is in: one request to the provider,
      then its answer goes in as the teacher's message. */
  function ReplyOn(s1: ConversationState, cmd: SendMessageCommand, withLanguages: bool,
                   reply: GenerationRequest -> Result<string>,
                   studentMessageId: Uuid, teacherMessageId: Uuid, nowTeacher: Timestamp): Exchange
  {
    var request := RequestFor(s1, cmd, withLanguages);
    match reply(request)
    case Failure(e) => Exchange(Failure(e), [request], None)
    case Success(text) =>
      var answered := AddMessageStep(s1, teacherMessageId, nowTeacher, Teacher, text);
      if answered.result.Failure? then Exchange(Failure(answered.result.error), [request], None)
      else Exchange(Success(SendMessageResult(teacherMessageId, studentMessageId, text)),
                    [request], Some(answered.state))
  }

  // Properties of the last stage, on which those of the whole call rest.

  /** Once the student's message is in, the provider is asked exactly once,
      about the conversation as it then stands; a provider failure is the
      call's failure; something is saved exactly when the call succeeds. */
  lemma ReplyOnAsksOnce(s1: ConversationState, cmd: SendMessageCommand, withLanguages: bool,
                        reply: GenerationRequest -> Result<string>, sid: Uuid, tid: Uuid, nt: Timestamp)
    ensures var x := ReplyOn(s1, cmd, withLanguages, reply, sid, tid, nt);
      && x.requests == [RequestFor(s1, cmd, withLanguages)]
      && (reply(x.requests[0]).Failure? ==> x.result == Failure(reply(x.requests[0]).error))
      && (x.saved.Some? <==> x.result.Success?)
  {
  }

  /** The last stage succeeds exactly when the conversation is writable and
      the provider answers with text that is not blank. */
  lemma ReplyOnSucceedsIff(s1: ConversationState, cmd: SendMessageCommand, withLanguages: bool,
                           reply: GenerationRequest -> Result<string>, sid: Uuid, tid: Uuid, nt: Timestamp)
    ensures var answer := reply(RequestFor(s1, cmd, withLanguages));
      ReplyOn(s1, cmd, withLanguages, reply, sid, tid, nt).result.Success? <==>
        s1.status.IsWritable() && answer.Success? && !IsBlank(answer.value)
  {
    var answer := reply(RequestFor(s1, cmd, withLanguages));
    if answer.Success? {
      AddMessageSucceedsIff(s1, tid, nt, Teacher, answer.value);
    }
  }

  /** A successful last stage saves the conversation with the teacher's
      answer appended at `nt` and names both messages in its result. */
  lemma ReplyOnSuccess(s1: ConversationState, cmd: SendMessageCommand, withLanguages: bool,
                       reply: GenerationRequest -> Result<string>, sid: Uuid, tid: Uuid, nt: Timestamp)
    requires ReplyOn(s1, cmd, withLanguages, reply, sid, tid, nt).result.Success?
    ensures var x := ReplyOn(s1, cmd, withLanguages, reply, sid, tid, nt);
      var text := x.result.value.teacherMessage;
      && reply(RequestFor(s1, cmd, withLanguages)) == Success(text)
      && x.saved == Some(s1.(messages := s1.messages + [Message(tid, Teacher, text, nt)], lastActivityAt := nt))
      && x.result.value.messageId == tid && x.result.value.studentMessageId == sid
  {
    var answer := reply(RequestFor(s1, cmd, withLanguages));
    AddMessageSucceedsIff(s1, tid, nt, Teacher, answer.value);
    AddMessageAppendsOne(s1, tid, nt, Teacher, answer.value);
  }

  lemma ReplyOnKeepsWellFormed(s1: ConversationState, cmd: SendMessageCommand, withLanguages: bool,
                               reply: GenerationRequest -> Result<string>, sid: Uuid, tid: Uuid, nt: Timestamp)
    requires WellFormed(s1)
    ensures var x := ReplyOn(s1, cmd, withLanguages, reply, sid, tid, nt);
      x.saved.Some? ==> WellFormed(x.saved.value)
  {
    var answer := reply(RequestFor(s1, cmd, withLanguages));
    if answer.Success? {
      AddMessagePreservesWellFormed(s1, tid, nt, Teacher, answer.value);
    }
  }

  // Properties of the whole call.

  /** A missing conversation is reported before anything else happens: no
      request to the chat provider, nothing saved. */
  lemma SendMessageToMissingConversation(cmd: SendMessageCommand, withLanguages: bool,
                                         reply: GenerationRequest -> Result<string>,
                                         sid: Uuid, ns: Timestamp, tid: Uuid, nt: Timestamp)
    ensures SendMessageSpec(None, cmd, withLanguages, reply, sid, ns, tid, nt)
         == Exchange(Failure(ResourceNotFound("Conversation", cmd.conversationId)), [], None)
  {
  }

  /** An archived or deleted conversation fails at the student's message with
      the not-writable error, before any request, and nothing is saved. */
  lemma SendMessageToClosedConversation(s0: ConversationState, cmd: SendMessageCommand, withLanguages: bool,
                                        reply: GenerationRequest -> Result<string>,
                                        sid: Uuid, ns: Timestamp, tid: Uuid, nt: Timestamp)
    requires !s0.status.IsWritable()
    ensures SendMessageSpec(Some(s0), cmd, withLanguages, reply, sid, ns, tid, nt)
         == Exchange(Failure(ConversationNotWritable(s0.id, s0.status.Value())), [], None)
  {
    AddMessageRefusedUnlessWritable(s0, sid, ns, Student, cmd.studentMessage);
  }

  /** A blank student message fails with the content error before any
      request, and nothing is saved. */
  lemma SendBlankMessage(s0: ConversationState, cmd: SendMessageCommand, withLanguages: bool,
                         reply: GenerationRequest -> Result<string>,
                         sid: Uuid, ns: Timestamp, tid: Uuid, nt: Timestamp)
    requires s0.status.IsWritable() && IsBlank(cmd.studentMessage)
    ensures SendMessageSpec(Some(s0), cmd, withLanguages, reply, sid, ns, tid, nt)
         == Exchange(Failure(InvalidChatMessageContent), [], None)
  {
    AddMessageBlankTouchesOnly(s0, sid, ns, Student, cmd.studentMessage);
  }

  /** Nothing is saved unless the call succeeds, and a successful call saves. */
  lemma SavedExactlyOnSuccess(stored: Option<ConversationState>, cmd: SendMessageCommand, withLanguages: bool,
                              reply: GenerationRequest -> Result<string>,
                              sid: Uuid, ns: Timestamp, tid: Uuid, nt: Timestamp)
    ensures var x := SendMessageSpec(stored, cmd, withLanguages, reply, sid, ns, tid, nt);
      x.saved.Some? <==> x.result.Success?
  {
    if stored.Some? {
      var asked := AddMessageStep(stored.value, sid, ns, Student, cmd.studentMessage);
      if asked.result.Success? {
        ReplyOnAsksOnce(asked.state, cmd, withLanguages, reply, sid, tid, nt);
      }
    }
  }

  /** The chat provider is asked at most once, and only once the student's
      message is in. */
  lemma GeneratorAskedOnlyAfterStudentMessage(s0: ConversationState, cmd: SendMessageCommand, withLanguages: bool,
                                              reply: GenerationRequest -> Result<string>,
                                              sid: Uuid, ns: Timestamp, tid: Uuid, nt: Timestamp)
    ensures var x := SendMessageSpec(Some(s0), cmd, withLanguages, reply, sid, ns, tid, nt);
      && |x.requests| <= 1
      && (x.requests != [] <==> s0.status.IsWritable() && !IsBlank(cmd.studentMessage))
  {
    var asked := AddMessageStep(s0, sid, ns, Student, cmd.studentMessage);
    AddMessageSucceedsIff(s0, sid, ns, Student, cmd.studentMessage);
    if asked.result.Success? {
      ReplyOnAsksOnce(asked.state, cmd, withLanguages, reply, sid, tid, nt);
    }
  }

  /** The history the provider gets is the earlier messages followed by the
      student's new one, with the profile of the command and, for the current
      use case, the conversation's languages. A provider failure comes back
      as the call's failure. */
  lemma GeneratorSeesStudentMessage(s0: ConversationState, cmd: SendMessageCommand, withLanguages: bool,
                                    reply: GenerationRequest -> Result<string>,
                                    sid: Uuid, ns: Timestamp, tid: Uuid, nt: Timestamp)
    requires SendMessageSpec(Some(s0), cmd, withLanguages, reply, sid, ns, tid, nt).requests != []
    ensures var x := SendMessageSpec(Some(s0), cmd, withLanguages, reply, sid, ns, tid, nt);
      && x.requests[0].history == s0.messages + [Message(sid, Student, cmd.studentMessage, ns)]
      && x.requests[0].profile == TeacherProfile(cmd.creativity, cmd.style)
      && (withLanguages ==> x.requests[0].nativeLang == Some(s0.nativeLang)
                            && x.requests[0].targetLang == Some(s0.targetLang))
      && (!withLanguages ==> x.requests[0].nativeLang.None? && x.requests[0].targetLang.None?)
      && (reply(x.requests[0]).Failure? ==> x.result == Failure(reply(x.requests[0]).error))
  {
    var asked := AddMessageStep(s0, sid, ns, Student, cmd.studentMessage);
    AddMessageSucceedsIff(s0, sid, ns, Student, cmd.studentMessage);
    AddMessageAppendsOne(s0, sid, ns, Student, cmd.studentMessage);
    ReplyOnAsksOnce(asked.state, cmd, withLanguages, reply, sid, tid, nt);
  }

  /** On success the saved conversation is the loaded one with exactly two
      more messages, the student's then the teacher's, each stamped by its
      own clock reading; it was last active when the teacher answered; the
      result names both messages and carries the teacher's text. */
  lemma SendMessageSuccess(s0: ConversationState, cmd: SendMessageCommand, withLanguages: bool,
                           reply: GenerationRequest -> Result<string>,
                           sid: Uuid, ns: Timestamp, tid: Uuid, nt: Timestamp)
    requires SendMessageSpec(Some(s0), cmd, withLanguages, reply, sid, ns, tid, nt).result.Success?
    ensures var x := SendMessageSpec(Some(s0), cmd, withLanguages, reply, sid, ns, tid, nt);
      var text := x.result.value.teacherMessage;
      && x.requests != [] && reply(x.requests[0]) == Success(text)
      && x.saved == Some(s0.(messages := s0.messages + [Message(sid, Student, cmd.studentMessage, ns),
                                                        Message(tid, Teacher, text, nt)],
                             lastActivityAt := nt))
      && x.result.value.messageId == tid && x.result.value.studentMessageId == sid
  {
    var asked := AddMessageStep(s0, sid, ns, Student, cmd.studentMessage);
    AddMessageSucceedsIff(s0, sid, ns, Student, cmd.studentMessage);
    AddMessageAppendsOne(s0, sid, ns, Student, cmd.studentMessage);
    ReplyOnAsksOnce(asked.state, cmd, withLanguages, reply, sid, tid, nt);
    ReplyOnSuccess(asked.state, cmd, withLanguages, reply, sid, tid, nt);
    var text := reply(RequestFor(asked.state, cmd, withLanguages)).value;
    assert s0.messages + [Message(sid, Student, cmd.studentMessage, ns)] + [Message(tid, Teacher, text, nt)]
        == s0.messages + [Message(sid, Student, cmd.studentMessage, ns), Message(tid, Teacher, text, nt)];
  }

  /** A call succeeds exactly when the conversation exists and is active, the
      student's text is not blank, and the provider answers with text that is
      not blank. */
  lemma SendMessageSucceedsIff(stored: Option<ConversationState>, cmd: SendMessageCommand, withLanguages: bool,
                               reply: GenerationRequest -> Result<string>,
                               sid: Uuid, ns: Timestamp, tid: Uuid, nt: Timestamp)
    ensures var x := SendMessageSpec(stored, cmd, withLanguages, reply, sid, ns, tid, nt);
      x.result.Success? <==>
        && stored.Some? && stored.value.status.IsWritable() && !IsBlank(cmd.studentMessage)
        && var asked := AddMessageStep(stored.value, sid, ns, Student, cmd.studentMessage);
           var answer := reply(RequestFor(asked.state, cmd, withLanguages));
           answer.Success? && !IsBlank(answer.value)
  {
    if stored.Some? {
      var s0 := stored.value;
      var asked := AddMessageStep(s0, sid, ns, Student, cmd.studentMessage);
      AddMessageSucceedsIff(s0, sid, ns, Student, cmd.studentMessage);
      if asked.result.Success? {
        AddMessageAppendsOne(s0, sid, ns, Student, cmd.studentMessage);
        ReplyOnSucceedsIff(asked.state, cmd, withLanguages, reply, sid, tid, nt);
      }
    }
  }

  /** What a successful call saves is well-formed whenever what it loaded was. */
  lemma SendMessageKeepsWellFormed(s0: ConversationState, cmd: SendMessageCommand, withLanguages: bool,
                                   reply: GenerationRequest -> Result<string>,
                                   sid: Uuid, ns: Timestamp, tid: Uuid, nt: Timestamp)
    requires WellFormed(s0)
    ensures var x := SendMessageSpec(Some(s0), cmd, withLanguages, reply, sid, ns, tid, nt);
      x.saved.Some? ==> WellFormed(x.saved.value)
  {
    var asked := AddMessageStep(s0, sid, ns, Student, cmd.studentMessage);
    AddMessagePreservesWellFormed(s0, sid, ns, Student, cmd.studentMessage);
    if asked.result.Success? {
      ReplyOnKeepsWellFormed(asked.state, cmd, withLanguages, reply, sid, tid, nt);
    }
  }

  /** Asks the provider about the conversation as it now stands and appends
      its answer. */
  method ReplyFlow(conversation: Conversation, generator: TeacherGenerator,
                   cmd: SendMessageCommand, withLanguages: bool,
                   studentMessageId: Uuid, teacherMessageId: Uuid, nowTeacher: Timestamp)
    returns (r: Result<SendMessageResult>)
    modifies conversation, generator
    ensures var x := ReplyOn(old(conversation.State()), cmd, withLanguages, generator.reply,
                             studentMessageId, teacherMessageId, nowTeacher);
      && r == x.result
      && generator.requests == old(generator.requests) + x.requests
      && (x.saved.Some? ==> conversation.State() == x.saved.value)
  {
    var history := conversation.Messages();
    var profile := TeacherProfile(cmd.creativity, cmd.style);
    var request := if withLanguages
      then GenerationRequest(history, profile, Some(conversation.nativeLang), Some(conversation.targetLang))
      else GenerationRequest(history, profile, None, None);
    assert request == RequestFor(conversation.State(), cmd, withLanguages);
    var answer := generator.GetTeacherResponse(request);
    if answer.Failure? {
      return Failure(answer.error);
    }
    var answered := conversation.AddMessage(teacherMessageId, nowTeacher, Teacher, answer.value);
    if answered.Failure? {
      return Failure(answered.error);
    }
    r := Success(SendMessageResult(teacherMessageId, studentMessageId, answer.value));
  }

  /** Appends the student's message, then lets the provider answer. */
  method ExchangeFlow(conversation: Conversation, generator: TeacherGenerator,
                      cmd: SendMessageCommand, withLanguages: bool,
                      studentMessageId: Uuid, nowStudent: Timestamp,
                      teacherMessageId: Uuid, nowTeacher: Timestamp)
    returns (r: Result<SendMessageResult>)
    modifies conversation, generator
    ensures var x := ExchangeOn(old(conversation.State()), cmd, withLanguages, generator.reply,
                                studentMessageId, nowStudent, teacherMessageId, nowTeacher);
      && r == x.result
      && generator.requests == old(generator.requests) + x.requests
      && (x.saved.Some? ==> conversation.State() == x.saved.value)
  {
    var asked := conversation.AddMessage(studentMessageId, nowStudent, Student, cmd.studentMessage);
    if asked.Failure? {
      return Failure(asked.error);
    }
    r := ReplyFlow(conversation, generator, cmd, withLanguages, studentMessageId, teacherMessageId, nowTeacher);
  }

  /** The steps shared by both send-message use cases: load, append the
      student's message, ask the provider, append its answer, save once. */
  method SendMessageFlow(repo: InMemoryConversationRepository, generator: TeacherGenerator,
                         cmd: SendMessageCommand, withLanguages: bool,
                         studentMessageId: Uuid, nowStudent: Timestamp,
                         teacherMessageId: Uuid, nowTeacher: Timestamp)
    returns (r: Result<SendMessageResult>)
    requires repo.Valid()
    modifies repo, generator
    ensures repo.Valid()
    ensures var x := SendMessageSpec(Lookup(old(repo.storage), cmd.conversationId), cmd, withLanguages,
                                     generator.reply, studentMessageId, nowStudent, teacherMessageId, nowTeacher);
      && r == x.result
      && generator.requests == old(generator.requests) + x.requests
      && repo.storage == (if x.saved.Some? then old(repo.storage)[cmd.conversationId := x.saved.value]
                          else old(repo.storage))
      && repo.order == old(repo.order)
  {
    ghost var x := SendMessageSpec(Lookup(repo.storage, cmd.conversationId), cmd, withLanguages,
                                   generator.reply, studentMessageId, nowStudent, teacherMessageId, nowTeacher);
    SavedExactlyOnSuccess(Lookup(repo.storage, cmd.conversationId), cmd, withLanguages, generator.reply,
                          studentMessageId, nowStudent, teacherMessageId, nowTeacher);
    var found := repo.GetById(cmd.conversationId);
    if found.Failure? {
      return Failure(found.error);
    }
    var conversation := found.value;
    assert conversation.id == cmd.conversationId;
    assert x == ExchangeOn(conversation.State(), cmd, withLanguages, generator.reply,
                           studentMessageId, nowStudent, teacherMessageId, nowTeacher);
    r := ExchangeFlow(conversation, generator, cmd, withLanguages,
                      studentMessageId, nowStudent, teacherMessageId, nowTeacher);
    assert r == x.result && (x.saved.Some? ==> conversation.State() == x.saved.value);
    assert repo.storage == old(repo.storage) && repo.order == old(repo.order);
    if r.Success? {
      repo.Save(conversation);
    }
  }

  class CreateConversationUseCase {
    const repo: InMemoryConversationRepository

    constructor (repo: InMemoryConversationRepository)
      ensures this.repo == repo
    {
      this.repo := repo;
    }

    /** `execute`: build the conversation at `now` under the new id, then save
        it; a failed build raises before the save. */
    method Execute(cmd: CreateConversationCommand, conversationId: Uuid, now: Timestamp) returns (r: Result<Uuid>)
      modifies repo
      ensures var spec := NewState(conversationId, cmd.studentId, cmd.title, cmd.nativeLang, cmd.targetLang, now);
        && (r.Success? <==> spec.Success?)
        && (r.Failure? ==> r.error == spec.error && unchanged(repo))
        && (r.Success? ==> r.value == conversationId
                           && repo.storage == old(repo.storage)[conversationId := spec.value]
                           && repo.order == (if conversationId in old(repo.storage) then old(repo.order)
                                             else old(repo.order) + [conversationId]))
      ensures old(repo.Valid()) ==> repo.Valid()
    {
      var created := Conversation.CreateNew(conversationId, cmd.studentId, cmd.title,
                                            cmd.nativeLang, cmd.targetLang, now);
      if created.Failure? {
        return Failure(created.error);
      }
      repo.Save(created.value);
      r := Success(conversationId);
    }
  }

  /** The current send-message use case: the provider gets the languages too. */
  class SendMessageUseCase {
    const repo: InMemoryConversationRepository
    const generator: TeacherGenerator

    constructor (generator: TeacherGenerator, repo: InMemoryConversationRepository)
      ensures this.repo == repo && this.generator == generator
    {
      this.repo := repo;
      this.generator := generator;
    }

    method Execute(cmd: SendMessageCommand, studentMessageId: Uuid, nowStudent: Timestamp,
                   teacherMessageId: Uuid, nowTeacher: Timestamp) returns (r: Result<SendMessageResult>)
      requires repo.Valid()
      modifies repo, generator
      ensures repo.Valid()
      ensures var x := SendMessageSpec(Lookup(old(repo.storage), cmd.conversationId), cmd, true,
                                       generator.reply, studentMessageId, nowStudent, teacherMessageId, nowTeacher);
        && r == x.result
        && generator.requests == old(generator.requests) + x.requests
        && repo.storage == (if x.saved.Some? then old(repo.storage)[cmd.conversationId := x.saved.value]
                            else old(repo.storage))
        && repo.order == old(repo.order)
    {
      r := SendMessageFlow(repo, generator, cmd, true, studentMessageId, nowStudent, teacherMessageId, nowTeacher);
    }
  }

  /** The older send-message use case: the provider gets history and profile only. */
  class LegacySendMessageUseCase {
    const repo: InMemoryConversationRepository
    const generator: TeacherGenerator

    constructor (generator: TeacherGenerator, repo: InMemoryConversationRepository)
      ensures this.repo == repo && this.generator == generator
    {
      this.repo := repo;
      this.generator := generator;
    }

    method Execute(cmd: SendMessageCommand, studentMessageId: Uuid, nowStudent: Timestamp,
                   teacherMessageId: Uuid, nowTeacher: Timestamp) returns (r: Result<SendMessageResult>)
      requires repo.Valid()
      modifies repo, generator
      ensures repo.Valid()
      ensures var x := SendMessageSpec(Lookup(old(repo.storage), cmd.conversationId), cmd, false,
                                       generator.reply, studentMessageId, nowStudent, teacherMessageId, nowTeacher);
        && r == x.result
        && generator.requests == old(generator.requests) + x.requests
        && repo.storage == (if x.saved.Some? then old(repo.storage)[cmd.conversationId := x.saved.value]
                            else old(repo.storage))
        && repo.order == old(repo.order)
    {
      r := SendMessageFlow(repo, generator, cmd, false, studentMessageId, nowStudent, teacherMessageId, nowTeacher);
    }
  }
}
