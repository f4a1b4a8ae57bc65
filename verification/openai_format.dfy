/**
  The part of the OpenAI-compatible client that does not talk to the
  network: turning the conversation history into the SDK's message list,
  and checking the reply the service sent back.
 */
module OpenAIFormat {

  import opened Errors
  import opened Text
  import opened ChatOptions
  import opened ChatMessages

  /** One entry of the SDK's message list: a role name and the content. */
  datatype SdkMessage = SdkMessage(role: string, content: string)

  /** The SDK role of a domain role: the student speaks as "user", anyone
      else as "assistant". */
  function SdkRole(role: Role): (r: string)
    ensures r == "user" <==> role == Student
    ensures r == "assistant" <==> role != Student
  {
    if role == Student then "user" else "assistant"
  }

  /** `_convert_to_openai_format`: the system prompt first, then one entry per
      message, in order, with the content unchanged. */
  method ConvertToOpenAIFormat(messages: seq<Message>, systemPrompt: string) returns (r: seq<SdkMessage>)
    ensures |r| == |messages| + 1
    ensures r[0] == SdkMessage("system", systemPrompt)
    ensures forall i :: 0 <= i < |messages| ==>
              r[i + 1] == SdkMessage(SdkRole(messages[i].role), messages[i].content)
  {
    r := [SdkMessage("system", systemPrompt)];
    for i := 0 to |messages|
      invariant |r| == i + 1
      invariant r[0] == SdkMessage("system", systemPrompt)
      invariant forall j :: 0 <= j < i ==> r[j + 1] == SdkMessage(SdkRole(messages[j].role), messages[j].content)
    {
      var msg := messages[i];
      if msg.role == Student {
        r := r + [SdkMessage("user", msg.content)];
      } else {
        r := r + [SdkMessage("assistant", msg.content)];
      }
    }
  }

  /** Only the first entry carries the system role; the entries after it
      alternate between "user" and "assistant" exactly as the authors of
      the messages do. */
  lemma OnlyFirstEntryIsSystem(messages: seq<Message>, r: seq<SdkMessage>, systemPrompt: string)
    requires |r| == |messages| + 1 && r[0] == SdkMessage("system", systemPrompt)
    requires forall i :: 0 <= i < |messages| ==>
               r[i + 1] == SdkMessage(SdkRole(messages[i].role), messages[i].content)
    ensures forall k :: 1 <= k < |r| ==> r[k].role != "system"
    ensures forall k :: 1 <= k < |r| ==> (r[k].role == "user" <==> messages[k - 1].IsFromStudent())
  {
    forall k | 1 <= k < |r| ensures r[k].role != "system" {
      assert r[k] == SdkMessage(SdkRole(messages[k - 1].role), messages[k - 1].content);
      assert "user"[0] != "system"[0];
      assert "assistant"[0] != "system"[0];
    }
  }

  // The reply as the SDK returns it; any level may be missing.

  datatype ReplyMessage = ReplyMessage(content: Option<string>)

  datatype Choice = Choice(message: Option<ReplyMessage>)

  datatype Completion = Completion(choices: seq<Choice>)

  const EmptyReplyCause := "The teacher service returned an empty response."

  const InvalidFormatCause := "Invalid response format from teacher service."

  /** The reply check of `generate`: the first choice's message content,
      stripped; a missing choice or message is a format error; missing or
      blank content is an empty-response error. */
  function CheckReply(response: Completion): (r: Result<string>)
    ensures (|response.choices| == 0 || response.choices[0].message.None?)
            ==> r == Failure(TeacherResponse(InvalidFormatCause))
    ensures |response.choices| > 0 && response.choices[0].message.Some? ==>
              var content := response.choices[0].message.value.content;
              && (content.None? || IsBlank(content.value) ==> r == Failure(TeacherResponse(EmptyReplyCause)))
              && (content.Some? && !IsBlank(content.value) ==> r == Success(Strip(content.value)))
  {
    if |response.choices| == 0 || response.choices[0].message.None? then
      Failure(TeacherResponse(InvalidFormatCause))
    else
      var content := response.choices[0].message.value.content;
      BlankIffStripEmpty(if content.Some? then content.value else "");
      if content.None? || |Strip(content.value)| == 0 then Failure(TeacherResponse(EmptyReplyCause))
      else Success(Strip(content.value))
  }

  /** An accepted reply is never blank, has no surrounding whitespace, and is
      therefore a legal message content for the conversation. */
  lemma AcceptedReplyIsCleanContent(response: Completion)
    requires CheckReply(response).Success?
    ensures var text := CheckReply(response).value;
      && !IsBlank(text) && Strip(text) == text
      && ValidateContent(text) == Pass
  {
    var content := response.choices[0].message.value.content.value;
    var text := Strip(content);
    StripIdempotent(content);
    BlankIffStripEmpty(text);
  }

  /** Every failure of the reply check is a teacher-response error carrying
      one of the two causes. */
  lemma ReplyFailuresAreTeacherErrors(response: Completion)
    requires CheckReply(response).Failure?
    ensures CheckReply(response).error == TeacherResponse(InvalidFormatCause)
         || CheckReply(response).error == TeacherResponse(EmptyReplyCause)
  {
  }
}
