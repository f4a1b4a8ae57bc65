/**
  Identifiers, timestamps, the error taxonomy of the core and the
  failure-carrying wrappers every fallible operation returns.

  UUIDs are opaque natural numbers and datetimes are integers: the model
  only ever compares them for equality (and timestamps for order).
 */
module Errors {

  import opened Cefr

  type Uuid = nat
  type Timestamp = int

  /** Every exception kind the core raises, one constructor per kind. */
  datatype Error =
    | InvalidLanguageIsoCode(invalidCode: string)
    | InvalidLanguagePair(native: string, target: string)
    | InvalidLevelChange(current: CEFRLevel, requested: CEFRLevel)
    | EmptyConversationTitle(conversationId: Uuid)
    | ConversationTitleTooLong(conversationId: Uuid, titleLength: nat, maxLength: nat)
    | ConversationNotWritable(conversationId: Uuid, statusValue: string)
    | InvalidChatMessageContent
    | ResourceNotFound(resourceType: string, resourceId: Uuid)
    | TeacherResponse(cause: string)
    | InvalidBaseUrl(message: string)   // pydantic's ValueError on a config field

  datatype Option<+T> = None | Some(value: T)

  datatype Result<+T> = Success(value: T) | Failure(error: Error)

  /** The outcome of an operation that returns nothing but may raise. */
  datatype Outcome = Pass | Fail(error: Error)
}
