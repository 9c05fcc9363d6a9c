/**
 * The messaging service (backend/app/services/messaging_service.py): a
 * registry of live sockets by user, the deliver-or-queue policy of
 * send_message, and the conversation store it persists into.
 */
module MessagingService {
  import opened Wrappers
  import opened PyValues
  import opened Messages
  import CS = ConversationStore

  /** A websocket, by an opaque handle. */
  datatype Socket = Socket(handle: nat)

  /** One `send_json(text)` on a receiver's socket. */
  datatype Push = Push(receiver: UserId, socket: Socket, text: string)

  /**
   * What one `receive_json()` yields: a JSON object received at time `at`
   * (with the uuid4() value the store would draw if this message opens a
   * conversation), or the ways the socket can end.
   */
  datatype Frame =
    | Json(doc: MessageDoc, at: string, uuid: string)
    | ClientClosed      // the client closed the socket: WebSocketDisconnect
    | ConnectionClosed  // websockets' ConnectionClosedError
    | ProtocolError     // WebSocketException
    | Undecodable       // a frame that is not a JSON object

  /** What receive_message raises instead of returning a message. */
  datatype ReceiveError = Disconnect | Malformed(error: PyError)

  /**
   * receive_message: the received dict, stamped with status "delivered"
   * (provisional: send_message always overwrites it) and the receive time.
   * Closed connections and protocol errors surface as WebSocketDisconnect;
   * a frame that is not a JSON object raises a decoding error.
   */
  function ReceiveMessage(f: Frame): (r: Result<MessageDoc, ReceiveError>)
    ensures r.Ok? <==> f.Json?
    ensures f.Json? ==> r.value.status == Some(Delivered) && r.value.timestamp == Some(f.at)
    ensures f.Json? ==> r.value.(status := f.doc.status, timestamp := f.doc.timestamp) == f.doc
    ensures f.Undecodable? ==> r == Err(Malformed(DecodeError))
    ensures (f.ClientClosed? || f.ConnectionClosed? || f.ProtocolError?) ==> r == Err(Disconnect)
  {
    match f
    case Json(doc, at, _) => Ok(doc.(status := Some(Delivered), timestamp := Some(at)))
    case Undecodable => Err(Malformed(DecodeError))
    case _ => Err(Disconnect)
  }

  /** The deliver-or-queue rule: "delivered" exactly when the text is non-empty and the receiver has a live socket. */
  function DeliveryStatus(text: Option<string>, receiver: Option<UserId>, conns: map<UserId, Socket>): (s: Status)
    ensures s == Delivered <==> text.Some? && text.value != "" && receiver.Some? && receiver.value in conns
  {
    if text.Some? && text.value != "" && receiver.Some? && receiver.value in conns then Delivered else Sent
  }

  /**
   * send_message's stamping: the sender is the caller's user id whatever
   * the payload said, the status follows the delivery rule, and every other
   * field is kept.
   */
  function Stamped(m: MessageDoc, userId: UserId, conns: map<UserId, Socket>): (r: MessageDoc)
    ensures r.senderId == Some(userId)
    ensures r.status == Some(Delivered) <==> m.text.Some? && m.text.value != "" && m.receiverId.Some? && m.receiverId.value in conns
    ensures r.status.Some?
    ensures r.(senderId := m.senderId, status := m.status) == m
  {
    m.(senderId := Some(userId), status := Some(DeliveryStatus(m.text, m.receiverId, conns)))
  }

  /** What send_message pushes after storing: the text, to the receiver's current socket, only when delivered. */
  function Pushes(m: MessageDoc, conns: map<UserId, Socket>): (r: seq<Push>)
    ensures |r| <= 1
    ensures |r| == 1 <==> DeliveryStatus(m.text, m.receiverId, conns) == Delivered
    ensures |r| == 1 ==> r[0].receiver == m.receiverId.value && r[0].socket == conns[r[0].receiver] && Some(r[0].text) == m.text
  {
    if DeliveryStatus(m.text, m.receiverId, conns) == Delivered then
      [Push(m.receiverId.value, conns[m.receiverId.value], m.text.value)]
    else []
  }

  /** A stamped message is "delivered" exactly when something is pushed for it. */
  lemma StatusMatchesPush(m: MessageDoc, userId: UserId, conns: map<UserId, Socket>)
    ensures var s := Stamped(m, userId, conns);
            s.status == Some(Delivered) <==> |Pushes(s, conns)| == 1
  {
  }

  /**
   * MessagingService: the registry of active connections, the
   * "conversations" collection, and every push made, in order.
   */
  class Service {
    var activeConnections: map<UserId, Socket>
    var conversations: seq<Conversation>
    var outbox: seq<Push>

    /** At most one conversation per pair of users, each between two users. */
    ghost predicate Valid()
      reads this
    {
      CS.WellFormed(conversations)
    }

    constructor ()
      ensures Valid()
      ensures activeConnections == map[] && conversations == [] && outbox == []
    {
      activeConnections := map[];
      conversations := [];
      outbox := [];
    }

    /** connect: the user's entry now maps to this socket, replacing any earlier one; other users are untouched. */
    method Connect(userId: UserId, ws: Socket)
      modifies this
      ensures activeConnections == old(activeConnections)[userId := ws]
      ensures conversations == old(conversations) && outbox == old(outbox)
    {
      activeConnections := activeConnections[userId := ws];
    }

    /** disconnect: the user's entry is removed if present; nothing happens otherwise. */
    method Disconnect(userId: UserId, ws: Socket)
      modifies this
      ensures activeConnections == old(activeConnections) - {userId}
      ensures userId !in old(activeConnections) ==> activeConnections == old(activeConnections)
      ensures conversations == old(conversations) && outbox == old(outbox)
    {
      activeConnections := activeConnections - {userId};
    }

    /** store_message: the update-or-insert of ConversationStore.Store, on the collection. */
    method StoreMessage(message: MessageDoc, uuid: string) returns (r: Outcome<PyError>)
      requires Valid()
      modifies this
      ensures Valid()
      ensures activeConnections == old(activeConnections) && outbox == old(outbox)
      ensures CS.Store(old(conversations), message, uuid).Ok? ==>
                r == Pass && conversations == CS.Store(old(conversations), message, uuid).value
      ensures CS.Store(old(conversations), message, uuid).Err? ==>
                r == Fail(CS.Store(old(conversations), message, uuid).error) && conversations == old(conversations)
    {
      if message.senderId.None? {
        return Fail(KeyError("sender_id"));
      }
      if message.receiverId.None? {
        return Fail(KeyError("receiver_id"));
      }
      var senderId, receiverId := message.senderId.value, message.receiverId.value;
      // update_one({"users": {"$all": [sender, receiver]}}, {"$push": {"messages": message}})
      var matched := CS.FindPair(conversations, senderId, receiverId);
      if matched.Some? {
        var i := matched.value;
        CS.StorePreservesWellFormed(conversations, message, uuid);
        conversations := conversations[i := conversations[i].(messages := conversations[i].messages + [message])];
        return Pass;
      }
      // nothing matched: insert a new conversation
      if message.timestamp.None? {
        return Fail(KeyError("timestamp"));
      }
      CS.StorePreservesWellFormed(conversations, message, uuid);
      conversations := conversations + [Conversation("conv" + uuid, [senderId, receiverId], [message], message.timestamp.value)];
      r := Pass;
    }

    /**
     * send_message: stamp the caller as sender and the status by the
     * delivery rule, always store, and push the text to the receiver's
     * socket only when delivered, after storing. A failing store raises
     * before anything is pushed.
     */
    method SendMessage(message: MessageDoc, userId: UserId, uuid: string) returns (r: Outcome<PyError>)
      requires Valid()
      modifies this
      ensures Valid()
      ensures activeConnections == old(activeConnections)
      ensures var m := Stamped(message, userId, old(activeConnections));
              CS.Store(old(conversations), m, uuid).Ok? ==>
                && r == Pass
                && conversations == CS.Store(old(conversations), m, uuid).value
                && outbox == old(outbox) + Pushes(m, old(activeConnections))
      ensures var m := Stamped(message, userId, old(activeConnections));
              CS.Store(old(conversations), m, uuid).Err? ==>
                && r == Fail(CS.Store(old(conversations), m, uuid).error)
                && conversations == old(conversations) && outbox == old(outbox)
    {
      var m := message.(senderId := Some(userId));
      var text := m.text;
      var receiverId := m.receiverId;
      if text.Some? && text.value != "" && receiverId.Some? && receiverId.value in activeConnections {
        m := m.(status := Some(Delivered));
        r := StoreMessage(m, uuid);
        if r.Pass? {
          outbox := outbox + [Push(receiverId.value, activeConnections[receiverId.value], text.value)];
        }
      } else {
        m := m.(status := Some(Sent));
        r := StoreMessage(m, uuid);
      }
    }

    /** get_conversation: the conversation involving both users, if one exists (the first one, in natural order). */
    function GetConversation(userId: UserId, receiverId: UserId): (r: Option<Conversation>)
      reads this
      ensures r.Some? <==> exists j :: 0 <= j < |conversations| && CS.Involves(conversations[j], userId, receiverId)
      ensures r.Some? ==> r.value in conversations && userId in r.value.users && receiverId in r.value.users
    {
      CS.Lookup(conversations, userId, receiverId)
    }

    /** get_user_conversation_history: exactly the conversations whose users include the user. */
    function GetUserConversationHistory(userId: UserId): (r: seq<Conversation>)
      reads this
      ensures forall c :: c in r <==> c in conversations && userId in c.users
    {
      CS.History(conversations, userId)
    }
  }
}
