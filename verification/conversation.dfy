/**
  The Conversation aggregate: an owner, a language pair, a title, a status
  (ACTIVE, then ARCHIVED or DELETED) and an append-only history of messages.
  Only an ACTIVE conversation accepts messages or a new title; every
  mutation stamps `lastActivityAt` with the caller's `now`.

  Each state-changing method of the class is proved against a function on
  `ConversationState` values (`AddMessageStep`, `ArchiveStep`, ...); the
  properties the aggregate promises are lemmas about those functions.
 */
module Conversations {

  import opened Errors
  import opened Text
  import opened ChatOptions
  import opened Languages
  import opened ChatMessages

  const MaxTitleLength: nat := 100

  /** The dataclass default of `_title`. */
  const DefaultTitle := "Conversation"

  /** Title validation shared by `create_new` and `modify_title`: strip, then
      refuse an empty or over-long result. */
  function CleanTitle(id: Uuid, title: string): (r: Result<string>)
    ensures r.Success? <==> 1 <= |Strip(title)| <= MaxTitleLength
    ensures r.Success? ==> r.value == Strip(title)
    ensures r.Failure? ==> r.error == (if |Strip(title)| == 0 then EmptyConversationTitle(id)
                                       else ConversationTitleTooLong(id, |Strip(title)|, MaxTitleLength))
  {
    var cleaned := Strip(title);
    if |cleaned| == 0 then Failure(EmptyConversationTitle(id))
    else if |cleaned| > MaxTitleLength then Failure(ConversationTitleTooLong(id, |cleaned|, MaxTitleLength))
    else Success(cleaned)
  }

  /** A title that the aggregate may hold: 1 to 100 characters, with no
      whitespace at either end (so stripping it changes nothing). */
  predicate TitleOk(t: string) {
    1 <= |t| <= MaxTitleLength && !IsSpace(t[0]) && !IsSpace(t[|t| - 1])
  }

  /** Every accepted title is a legal stored title, and cleaning it again
      gives it back unchanged. */
  lemma CleanTitleIdempotent(id: Uuid, title: string)
    requires CleanTitle(id, title).Success?
    ensures TitleOk(CleanTitle(id, title).value)
    ensures CleanTitle(id, CleanTitle(id, title).value) == CleanTitle(id, title)
  {
    StrippedTitleIsClean(id, title);
  }

  lemma StrippedTitleIsClean(id: Uuid, title: string)
    requires 1 <= |Strip(title)| <= MaxTitleLength
    ensures TitleOk(Strip(title))
    ensures CleanTitle(id, Strip(title)) == Success(Strip(title))
  {
    NoOuterSpaceStripsToItself(Strip(title));
  }

  /** Exactly 100 non-blank characters are accepted, 101 are refused. */
  lemma TitleLengthBoundary(id: Uuid)
    ensures CleanTitle(id, seq(100, _ => 'a')).Success?
    ensures CleanTitle(id, seq(101, _ => 'a')) == Failure(ConversationTitleTooLong(id, 101, 100))
  {
    var t100, t101 := seq(100, _ => 'a'), seq(101, _ => 'a');
    NoOuterSpaceStripsToItself(t100);
    NoOuterSpaceStripsToItself(t101);
  }

  /** `create_new`'s checks in order: the language pair first, then the title.
      On success, the cleaned title. */
  function CheckNew(id: Uuid, nativeLang: Language, targetLang: Language, title: string): (r: Result<string>)
    ensures nativeLang == targetLang ==> r == Failure(InvalidLanguagePair(nativeLang.code, targetLang.code))
    ensures nativeLang != targetLang ==> r == CleanTitle(id, title)
  {
    if nativeLang == targetLang then Failure(InvalidLanguagePair(nativeLang.code, targetLang.code))
    else CleanTitle(id, title)
  }

  /** The whole state of a conversation, as stored by a repository. */
  datatype ConversationState = ConversationState(
    id: Uuid,
    createdAt: Timestamp,
    studentId: Uuid,
    nativeLang: Language,
    targetLang: Language,
    title: string,
    status: Status,
    messages: seq<Message>,
    lastActivityAt: Timestamp)

  /** What every conversation built by `create_new` satisfies, and every
      operation keeps: distinct languages, a legal title, non-blank messages. */
  predicate WellFormed(s: ConversationState) {
    && s.nativeLang != s.targetLang
    && TitleOk(s.title)
    && forall i :: 0 <= i < |s.messages| ==> !IsBlank(s.messages[i].content)
  }

  /** The state `create_new` produces once its checks have passed. */
  function NewState(id: Uuid, studentId: Uuid, title: string, nativeLang: Language,
                    targetLang: Language, now: Timestamp): (r: Result<ConversationState>)
  {
    match CheckNew(id, nativeLang, targetLang, title)
    case Failure(e) => Failure(e)
    case Success(cleaned) =>
      Success(ConversationState(id, now, studentId, nativeLang, targetLang, cleaned, Active, [], now))
  }

  /** A new conversation is active, empty, created and last active at `now`,
      owned and configured as requested, with the stripped title; it fails
      with the language-pair error whenever the two languages are equal. */
  lemma NewStateProperties(id: Uuid, studentId: Uuid, title: string, nativeLang: Language,
                           targetLang: Language, now: Timestamp)
    ensures var r := NewState(id, studentId, title, nativeLang, targetLang, now);
      && (nativeLang == targetLang ==> r == Failure(InvalidLanguagePair(nativeLang.code, targetLang.code)))
      && (r.Success? <==> nativeLang != targetLang && 1 <= |Strip(title)| <= MaxTitleLength)
      && (r.Success? ==>
            && r.value.status == Active && r.value.messages == []
            && r.value.createdAt == now && r.value.lastActivityAt == now
            && r.value.id == id && r.value.studentId == studentId
            && r.value.nativeLang == nativeLang && r.value.targetLang == targetLang
            && r.value.title == Strip(title)
            && WellFormed(r.value))
  {
    if nativeLang != targetLang && 1 <= |Strip(title)| <= MaxTitleLength {
      StrippedTitleIsClean(id, title);
      var st := ConversationState(id, now, studentId, nativeLang, targetLang, Strip(title), Active, [], now);
      assert NewState(id, studentId, title, nativeLang, targetLang, now) == Success(st);
      assert WellFormed(st);
    }
  }

  /** The result of an operation that changes a conversation and returns something. */
  datatype Step<+T> = Step(state: ConversationState, result: T)

  function TouchStep(s: ConversationState, now: Timestamp): ConversationState {
    s.(lastActivityAt := now)
  }

  /** `add_message`: refuse when not writable; otherwise touch, then build the
      message (which may fail on blank content, after the touch) and append it. */
  function AddMessageStep(s: ConversationState, messageId: Uuid, now: Timestamp,
                          role: Role, content: string): Step<Result<Message>>
  {
    if !s.status.IsWritable() then
      Step(s, Failure(ConversationNotWritable(s.id, s.status.Value())))
    else
      var touched := TouchStep(s, now);
      match NewMessage(messageId, role, content, now)
      case Failure(e) => Step(touched, Failure(e))
      case Success(m) => Step(touched.(messages := touched.messages + [m]), Success(m))
  }

  function ArchiveStep(s: ConversationState, now: Timestamp): ConversationState {
    TouchStep(s.(status := Archived), now)
  }

  function DeleteStep(s: ConversationState, now: Timestamp): ConversationState {
    TouchStep(s.(status := Deleted), now)
  }

  /** `modify_title`: writability first, then the title checks; any failure
      leaves the state as it was. */
  function ModifyTitleStep(s: ConversationState, newTitle: string, now: Timestamp): Step<Outcome> {
    if !s.status.IsWritable() then
      Step(s, Fail(ConversationNotWritable(s.id, s.status.Value())))
    else
      match CleanTitle(s.id, newTitle)
      case Failure(e) => Step(s, Fail(e))
      case Success(cleaned) => Step(TouchStep(s.(title := cleaned), now), Pass)
  }

  /** An archived or deleted conversation refuses every message with the
      not-writable error and stays exactly as it was. */
  lemma AddMessageRefusedUnlessWritable(s: ConversationState, messageId: Uuid, now: Timestamp,
                                        role: Role, content: string)
    requires !s.status.IsWritable()
    ensures AddMessageStep(s, messageId, now, role, content)
         == Step(s, Failure(ConversationNotWritable(s.id, s.status.Value())))
  {
  }

  /** On a writable conversation with non-blank content, exactly one message is
      appended at the end, carrying the given id, role, content and `now`;
      earlier messages keep their order; the message is returned; the
      conversation was last active at `now`; nothing else changes. */
  lemma AddMessageAppendsOne(s: ConversationState, messageId: Uuid, now: Timestamp,
                             role: Role, content: string)
    requires s.status.IsWritable() && !IsBlank(content)
    ensures var st := AddMessageStep(s, messageId, now, role, content);
      && st.result == Success(Message(messageId, role, content, now))
      && |st.state.messages| == |s.messages| + 1
      && st.state.messages[..|s.messages|] == s.messages
      && st.state.messages[|s.messages|] == st.result.value
      && st.state.lastActivityAt == now
      && st.state == s.(messages := st.state.messages, lastActivityAt := now)
  {
    assert (s.messages + [Message(messageId, role, content, now)])[..|s.messages|] == s.messages;
  }

  /** Blank content on a writable conversation fails with the content error,
      appends nothing, but has already moved `lastActivityAt` to `now`. */
  lemma AddMessageBlankTouchesOnly(s: ConversationState, messageId: Uuid, now: Timestamp,
                                   role: Role, content: string)
    requires s.status.IsWritable() && IsBlank(content)
    ensures AddMessageStep(s, messageId, now, role, content)
         == Step(s.(lastActivityAt := now), Failure(InvalidChatMessageContent))
  {
  }

  /** Success happens exactly when the conversation is writable and the content
      non-blank; the history only ever grows at its end. */
  lemma AddMessageSucceedsIff(s: ConversationState, messageId: Uuid, now: Timestamp,
                              role: Role, content: string)
    ensures var st := AddMessageStep(s, messageId, now, role, content);
      && (st.result.Success? <==> s.status.IsWritable() && !IsBlank(content))
      && |st.state.messages| == |s.messages| + (if st.result.Success? then 1 else 0)
      && st.state.messages[..|s.messages|] == s.messages
  {
  }

  /** `archive` and `delete` set their status whatever the current one, move
      `lastActivityAt` to `now`, and leave title and messages alone. */
  lemma ArchiveDeleteUnconditional(s: ConversationState, now: Timestamp)
    ensures ArchiveStep(s, now).status == Archived && DeleteStep(s, now).status == Deleted
    ensures ArchiveStep(s, now).lastActivityAt == now && DeleteStep(s, now).lastActivityAt == now
    ensures ArchiveStep(s, now) == s.(status := Archived, lastActivityAt := now)
    ensures DeleteStep(s, now) == s.(status := Deleted, lastActivityAt := now)
  {
  }

  /** `modify_title` succeeds exactly on a writable conversation with a title
      that strips to 1..100 characters; then the stored title is the stripped
      one and `lastActivityAt` is `now`. On failure nothing changes, and a
      non-writable conversation is reported before any title problem. */
  lemma ModifyTitleProperties(s: ConversationState, newTitle: string, now: Timestamp)
    ensures var st := ModifyTitleStep(s, newTitle, now);
      && (st.result.Pass? <==> s.status.IsWritable() && 1 <= |Strip(newTitle)| <= MaxTitleLength)
      && (st.result.Pass? ==> st.state == s.(title := Strip(newTitle), lastActivityAt := now))
      && (st.result.Fail? ==> st.state == s)
      && (!s.status.IsWritable() ==> st.result == Fail(ConversationNotWritable(s.id, s.status.Value())))
  {
  }

  /** Adding a message keeps a well-formed conversation well-formed: only
      non-blank messages are ever appended. */
  lemma AddMessagePreservesWellFormed(s: ConversationState, messageId: Uuid, now: Timestamp,
                                      role: Role, content: string)
    requires WellFormed(s)
    ensures WellFormed(AddMessageStep(s, messageId, now, role, content).state)
  {
    var a := AddMessageStep(s, messageId, now, role, content);
    if a.result.Success? {
      forall i | 0 <= i < |a.state.messages| ensures !IsBlank(a.state.messages[i].content) {
        if i < |s.messages| { assert a.state.messages[i] == s.messages[i]; }
      }
    }
  }

  /** Renaming keeps a well-formed conversation well-formed: the new title is
      a legal stored title. */
  lemma ModifyTitlePreservesWellFormed(s: ConversationState, newTitle: string, now: Timestamp)
    requires WellFormed(s)
    ensures WellFormed(ModifyTitleStep(s, newTitle, now).state)
  {
    if ModifyTitleStep(s, newTitle, now).result.Pass? {
      CleanTitleIdempotent(s.id, newTitle);
    }
  }

  /** Touching, archiving and deleting keep a well-formed conversation well-formed. */
  lemma LifecyclePreservesWellFormed(s: ConversationState, now: Timestamp)
    requires WellFormed(s)
    ensures WellFormed(ArchiveStep(s, now)) && WellFormed(DeleteStep(s, now))
    ensures WellFormed(TouchStep(s, now))
  {
  }

  /** Once a conversation is not writable, no operation makes it writable
      again: there is no way back to ACTIVE. */
  lemma NoResurrection(s: ConversationState, messageId: Uuid, now: Timestamp,
                       role: Role, content: string, newTitle: string)
    requires !s.status.IsWritable()
    ensures !AddMessageStep(s, messageId, now, role, content).state.status.IsWritable()
    ensures !ModifyTitleStep(s, newTitle, now).state.status.IsWritable()
    ensures !ArchiveStep(s, now).status.IsWritable() && !DeleteStep(s, now).status.IsWritable()
    ensures !TouchStep(s, now).status.IsWritable()
  {
  }

  class Conversation {
    const id: Uuid
    const createdAt: Timestamp
    const studentId: Uuid
    const nativeLang: Language
    const targetLang: Language
    var title: string
    var status: Status
    var messages: seq<Message>
    var lastActivityAt: Timestamp

    function State(): (s: ConversationState)
      reads this
      ensures s.id == id && s.messages == messages && s.status == status && s.title == title
    {
      ConversationState(id, createdAt, studentId, nativeLang, targetLang, title, status, messages, lastActivityAt)
    }

    ghost predicate Valid()
      reads this
    {
      WellFormed(State())
    }

    /** Builds an object holding exactly the given state: the dataclass
        constructor, and the deep copy a repository hands out. */
    constructor Restore(s: ConversationState)
      ensures State() == s
    {
      id, createdAt, studentId := s.id, s.createdAt, s.studentId;
      nativeLang, targetLang := s.nativeLang, s.targetLang;
      title, status, messages, lastActivityAt := s.title, s.status, s.messages, s.lastActivityAt;
    }

    /** `create_new`: a fresh, valid conversation in the state `NewState`
        describes, or the first failing check's error. */
    static method CreateNew(id: Uuid, studentId: Uuid, title: string, nativeLang: Language,
                            targetLang: Language, now: Timestamp) returns (r: Result<Conversation>)
      ensures var spec := NewState(id, studentId, title, nativeLang, targetLang, now);
        && (r.Success? <==> spec.Success?)
        && (r.Failure? ==> r.error == spec.error)
        && (r.Success? ==> fresh(r.value) && r.value.State() == spec.value && r.value.Valid())
    {
      NewStateProperties(id, studentId, title, nativeLang, targetLang, now);
      var spec := NewState(id, studentId, title, nativeLang, targetLang, now);
      if spec.Failure? {
        r := Failure(spec.error);
      } else {
        var c := new Conversation.Restore(spec.value);
        r := Success(c);
      }
    }

    /** `messages`: a copy of the history, in order. */
    function Messages(): (ms: seq<Message>)
      reads this
      ensures ms == State().messages
    {
      messages
    }

    function MessageCount(): (n: nat)
      reads this
      ensures n == |Messages()|
    {
      |messages|
    }

    /** `touch`: only `lastActivityAt` changes. */
    method Touch(now: Timestamp)
      modifies this
      ensures State() == TouchStep(old(State()), now)
    {
      lastActivityAt := now;
    }

    method AddMessage(messageId: Uuid, now: Timestamp, role: Role, content: string)
      returns (r: Result<Message>)
      modifies this
      ensures Step(State(), r) == AddMessageStep(old(State()), messageId, now, role, content)
      ensures !old(status).IsWritable() ==> unchanged(this)
      ensures old(Valid()) ==> Valid()
    {
      ghost var before := State();
      if !status.IsWritable() {
        return Failure(ConversationNotWritable(id, status.Value()));
      }
      lastActivityAt := now;
      r := NewMessage(messageId, role, content, now);
      if r.Success? {
        messages := messages + [r.value];
        assert State() == TouchStep(before, now).(messages := before.messages + [r.value]);
      } else {
        assert State() == TouchStep(before, now);
      }
      if WellFormed(before) {
        AddMessagePreservesWellFormed(before, messageId, now, role, content);
      }
    }

    method Archive(now: Timestamp)
      modifies this
      ensures State() == ArchiveStep(old(State()), now)
      ensures old(Valid()) ==> Valid()
    {
      status := Archived;
      Touch(now);
    }

    method Delete(now: Timestamp)
      modifies this
      ensures State() == DeleteStep(old(State()), now)
      ensures old(Valid()) ==> Valid()
    {
      status := Deleted;
      Touch(now);
    }

    method ModifyTitle(newTitle: string, now: Timestamp) returns (o: Outcome)
      modifies this
      ensures Step(State(), o) == ModifyTitleStep(old(State()), newTitle, now)
      ensures o.Fail? ==> unchanged(this)
      ensures old(Valid()) ==> Valid()
    {
      ghost var before := State();
      if !status.IsWritable() {
        return Fail(ConversationNotWritable(id, status.Value()));
      }
      var cleaned := CleanTitle(id, newTitle);
      if cleaned.Failure? {
        return Fail(cleaned.error);
      }
      title := cleaned.value;
      Touch(now);
      o := Pass;
      if WellFormed(before) {
        ModifyTitlePreservesWellFormed(before, newTitle, now);
      }
    }
  }
}
