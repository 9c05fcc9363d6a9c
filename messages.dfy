/**
 * The message and conversation records of the messaging layer
 * (backend/app/models/messages.py), and the message dict that the
 * messaging service receives, stamps and stores.
 */
module Messages {
  import opened Wrappers

  /** A user id: an opaque string issued elsewhere (the token's "sub" claim). */
  type UserId = string

  /** The delivery status the service stamps: "sent" or "delivered". */
  datatype Status = Sent | Delivered

  /**
   * A message as the service handles it: the JSON object a client sent,
   * stamped in place with sender, status and timestamp. A field is None when
   * its key is absent or null. Keys other than these six travel along in the
   * source's dict and are not modelled.
   */
  datatype MessageDoc = MessageDoc(
    conversationId: Option<string>,
    senderId: Option<UserId>,
    receiverId: Option<UserId>,
    text: Option<string>,
    status: Option<Status>,
    timestamp: Option<string>)

  /** MessageCreate: what a client sends to open or continue a conversation. */
  datatype MessageCreate = MessageCreate(conversationId: Option<string>, receiverId: UserId, text: string, timestamp: string)

  /** MessageResponse: a message as the server serves it (it has no status field). */
  datatype MessageResponse = MessageResponse(conversationId: string, senderId: UserId, receiverId: UserId, text: string, timestamp: string)

  /** ConversationResponse: a conversation as the server serves it (it has no users field). */
  datatype ConversationResponse = ConversationResponse(conversationId: string, messages: seq<MessageResponse>, createdAt: string)

  /**
   * A document of the "conversations" collection: the ConversationResponse
   * fields plus the `users` the service queries by. A document stored without
   * a `users` key has `users == []`: no `users` query matches it.
   */
  datatype Conversation = Conversation(conversationId: string, users: seq<UserId>, messages: seq<MessageDoc>, createdAt: string)

  /**
   * Validating a message dict as MessageCreate. `receiver_id` and `text`
   * are required, `conversation_id` may be null, and a missing `timestamp`
   * takes the class default. That default is `datetime.now()` evaluated once,
   * when the class is defined, so it is the parameter `importTime` here and
   * not the time of the message.
   */
  function ValidateCreate(d: MessageDoc, importTime: string): (r: Option<MessageCreate>)
    ensures r.Some? <==> d.receiverId.Some? && d.text.Some?
    ensures r.Some? ==> r.value.receiverId == d.receiverId.value && r.value.text == d.text.value
    ensures r.Some? ==> r.value.conversationId == d.conversationId
    ensures r.Some? && d.timestamp.None? ==> r.value.timestamp == importTime
    ensures r.Some? && d.timestamp.Some? ==> r.value.timestamp == d.timestamp.value
  {
    if d.receiverId.None? || d.text.None? then None
    else
      Some(MessageCreate(d.conversationId, d.receiverId.value, d.text.value,
                         if d.timestamp.Some? then d.timestamp.value else importTime))
  }

  /**
   * `MessageResponse(**message)`: validation succeeds exactly when all five
   * fields are present; the status is not part of the record and is dropped.
   */
  function ToResponse(d: MessageDoc): (r: Option<MessageResponse>)
    ensures r.Some? <==> d.conversationId.Some? && d.senderId.Some? && d.receiverId.Some? && d.text.Some? && d.timestamp.Some?
    ensures r.Some? ==> d == MessageDoc(Some(r.value.conversationId), Some(r.value.senderId), Some(r.value.receiverId),
                                        Some(r.value.text), d.status, Some(r.value.timestamp))
  {
    if d.conversationId.Some? && d.senderId.Some? && d.receiverId.Some? && d.text.Some? && d.timestamp.Some? then
      Some(MessageResponse(d.conversationId.value, d.senderId.value, d.receiverId.value, d.text.value, d.timestamp.value))
    else None
  }

  /** Validating a list of message dicts: all of them must validate, and their order is kept. */
  function ToResponses(ms: seq<MessageDoc>): (r: Option<seq<MessageResponse>>)
    ensures r.Some? <==> forall i :: 0 <= i < |ms| ==> ToResponse(ms[i]).Some?
    ensures r.Some? ==> |r.value| == |ms| && forall i :: 0 <= i < |ms| ==> Some(r.value[i]) == ToResponse(ms[i])
  {
    if ms == [] then Some([])
    else
      match (ToResponse(ms[0]), ToResponses(ms[1..]))
      case (Some(m), Some(rest)) => Some([m] + rest)
      case _ => None
  }

  /**
   * Validating a conversation document as ConversationResponse: its id and
   * creation time are kept, its messages must all validate and keep their
   * order, and its `users` are not part of the record.
   */
  function ToConversationResponse(c: Conversation): (r: Option<ConversationResponse>)
    ensures r.Some? <==> forall i :: 0 <= i < |c.messages| ==> ToResponse(c.messages[i]).Some?
    ensures r.Some? ==> r.value.conversationId == c.conversationId && r.value.createdAt == c.createdAt
    ensures r.Some? ==> |r.value.messages| == |c.messages|
    ensures r.Some? ==> forall i :: 0 <= i < |c.messages| ==> Some(r.value.messages[i]) == ToResponse(c.messages[i])
  {
    match ToResponses(c.messages)
    case Some(ms) => Some(ConversationResponse(c.conversationId, ms, c.createdAt))
    case None => None
  }
}
