/**
  A chat message: id, author role, content and creation time. Content must
  never be empty or whitespace-only; it may be edited afterwards under the
  same rule, whatever the role.

  `Message` is the value of a message (what a conversation's history holds
  and what is persisted); `ChatMessage` is the mutable entity.
 */
module ChatMessages {

  import opened Errors
  import opened Text
  import opened ChatOptions

  datatype Message = Message(id: Uuid, role: Role, content: string, createdAt: Timestamp) {

    predicate IsFromStudent() { role.IsStudent() }

    predicate IsFromTeacher() { role.IsTeacher() }
  }

  /** `_validate_content`: `not content or not content.strip()` fails. */
  function ValidateContent(content: string): (r: Outcome)
    ensures r.Pass? <==> !IsBlank(content)
    ensures r.Fail? ==> r.error == InvalidChatMessageContent
  {
    BlankIffStripEmpty(content);
    if |content| == 0 || |Strip(content)| == 0 then Fail(InvalidChatMessageContent) else Pass
  }

  /** Exactly one of the two authorship predicates holds, chosen by the role. */
  lemma AuthorshipExclusive(m: Message)
    ensures m.IsFromStudent() != m.IsFromTeacher()
    ensures m.IsFromStudent() <==> m.role == Student
  {
  }

  /** `create_new` on values: the message carries id, role and content
      verbatim (no trimming) and the creation time `now`, or the content
      error when the content is blank. */
  function NewMessage(id: Uuid, role: Role, content: string, now: Timestamp): (r: Result<Message>)
    ensures r.Success? <==> !IsBlank(content)
    ensures r.Success? ==> r.value == Message(id, role, content, now)
    ensures r.Failure? ==> r.error == InvalidChatMessageContent
  {
    match ValidateContent(content)
    case Fail(e) => Failure(e)
    case Pass => Success(Message(id, role, content, now))
  }

  class ChatMessage {
    const id: Uuid
    const role: Role
    var content: string
    const createdAt: Timestamp

    /** Every live message has non-blank content. */
    ghost predicate Valid()
      reads this
    {
      !IsBlank(content)
    }

    function Snapshot(): (m: Message)
      reads this
      ensures m.id == id && m.role == role && m.content == content && m.createdAt == createdAt
    {
      Message(id, role, content, createdAt)
    }

    /** The dataclass constructor, reached only once `__post_init__`'s check
        has passed (see `CreateNew`). */
    constructor (id: Uuid, role: Role, content: string, now: Timestamp)
      requires !IsBlank(content)
      ensures Valid() && Snapshot() == Message(id, role, content, now)
    {
      this.id := id;
      this.role := role;
      this.content := content;
      this.createdAt := now;
    }

    /** `create_new` (and direct construction): blank content is refused. */
    static method CreateNew(id: Uuid, role: Role, content: string, now: Timestamp)
      returns (r: Result<ChatMessage>)
      ensures r.Success? <==> !IsBlank(content)
      ensures r.Success? ==> fresh(r.value) && r.value.Valid()
                             && r.value.Snapshot() == Message(id, role, content, now)
      ensures r.Failure? ==> r.error == InvalidChatMessageContent
    {
      match ValidateContent(content)
      case Fail(e) =>
        r := Failure(e);
      case Pass =>
        var m := new ChatMessage(id, role, content, now);
        r := Success(m);
    }

    /** `edit_content`: validates, then replaces the content; id, role and
        creation time never change. A blank argument leaves the content as it was. */
    method EditContent(newContent: string) returns (o: Outcome)
      modifies this
      ensures o.Pass? <==> !IsBlank(newContent)
      ensures o.Fail? ==> o.error == InvalidChatMessageContent && content == old(content)
      ensures o.Pass? ==> content == newContent
      ensures old(Valid()) ==> Valid()
    {
      o := ValidateContent(newContent);
      if o.Pass? {
        content := newContent;
      }
    }

    predicate IsFromStudent()
      reads this
    {
      role.IsStudent()
    }

    predicate IsFromTeacher()
      reads this
    {
      role.IsTeacher()
    }
  }
}
