/**
 * The websocket endpoint of the messaging layer
 * (backend/app/routes/message_routes.py): authenticate by the token's
 * "sub" claim, register the socket, then receive and send one message at a
 * time until the socket goes away.
 */
module MessageRoutes {
  import opened Wrappers
  import opened PyValues
  import opened Messages
  import CS = ConversationStore
  import opened MessagingService

  /** How a session ends once the given frames are consumed. */
  datatype SessionEnd =
    | Refused                // no claims or no "sub": the handler raises before connecting
    | Closed                 // WebSocketDisconnect / WebSocketException: the user was unregistered
    | Crashed(error: PyError) // an exception the handler does not catch: the user stays registered
    | Open                   // the frames ran out: the loop is still waiting for the next one

  /** A frame the loop gets through: a JSON message naming its receiver. */
  predicate Handles(f: Frame) {
    f.Json? && f.doc.receiverId.Some?
  }

  /** How many leading frames the loop gets through before it stops. */
  function HandledCount(fs: seq<Frame>): (n: nat)
    ensures n <= |fs|
    ensures forall i :: 0 <= i < n ==> Handles(fs[i])
    ensures n < |fs| ==> !Handles(fs[n])
  {
    if fs == [] || !Handles(fs[0]) then 0 else 1 + HandledCount(fs[1..])
  }

  /** The messages the loop stores for handled frames: received, then stamped with the session's user. */
  function Docs(fs: seq<Frame>, u: UserId, conns: map<UserId, Socket>): (ds: seq<MessageDoc>)
    requires forall i :: 0 <= i < |fs| ==> Handles(fs[i])
    ensures |ds| == |fs|
    ensures forall i :: 0 <= i < |ds| && Handles(fs[i]) ==> ds[i].senderId == Some(u) && ds[i].receiverId == fs[i].doc.receiverId
    ensures forall i :: 0 <= i < |fs| && Handles(fs[i]) ==> ds[i] == Stamped(ReceiveMessage(fs[i]).value, u, conns)
  {
    seq(|fs|, i requires 0 <= i < |fs| && Handles(fs[i]) => Stamped(ReceiveMessage(fs[i]).value, u, conns))
  }

  /** The uuid each handled frame supplies to the store. */
  function Uuids(fs: seq<Frame>): (ids: seq<string>)
    requires forall i :: 0 <= i < |fs| ==> fs[i].Json?
    ensures |ids| == |fs|
  {
    seq(|fs|, i requires 0 <= i < |fs| && fs[i].Json? => fs[i].uuid)
  }

  /** How the session ends after the handled frames: by what the first unhandled frame is, if any. */
  function EndAfter(fs: seq<Frame>): SessionEnd {
    var n := HandledCount(fs);
    if n == |fs| then Open
    else if fs[n].Json? then Crashed(KeyError("receiver_id"))
    else if fs[n].Undecodable? then Crashed(DecodeError)
    else Closed
  }

  /** Handling one more frame adds its message and its uuid at the end. */
  lemma DocsStep(fs: seq<Frame>, i: nat, u: UserId, conns: map<UserId, Socket>)
    requires i < |fs| && forall j :: 0 <= j <= i ==> Handles(fs[j])
    ensures Docs(fs[..i + 1], u, conns) == Docs(fs[..i], u, conns) + [Stamped(ReceiveMessage(fs[i]).value, u, conns)]
    ensures Uuids(fs[..i + 1]) == Uuids(fs[..i]) + [fs[i].uuid]
  {
    assert fs[..i + 1][..i] == fs[..i];
  }

  /** Storing and pushing one more message extends the folds by that message. */
  lemma FoldStep(convs: seq<Conversation>, ms: seq<MessageDoc>, ids: seq<string>, m: MessageDoc, id: string, conns: map<UserId, Socket>)
    requires |ms| == |ids| && (forall i :: 0 <= i < |ms| ==> CS.Storable(ms[i])) && CS.Storable(m)
    ensures CS.StoreAll(convs, ms + [m], ids + [id]) == CS.Store(CS.StoreAll(convs, ms, ids), m, id).value
    ensures AllPushes(ms + [m], conns) == AllPushes(ms, conns) + Pushes(m, conns)
  {
    assert (ms + [m])[..|ms|] == ms;
    assert (ids + [id])[..|ids|] == ids;
  }

  /** The loop stops at i exactly when i is the number of handled frames. */
  lemma HandledCountAt(fs: seq<Frame>, i: nat)
    requires i <= |fs| && (forall j :: 0 <= j < i ==> Handles(fs[j])) && (i < |fs| ==> !Handles(fs[i]))
    ensures HandledCount(fs) == i
  {
  }

  /** Every push made for a sequence of stamped messages, in order. */
  function AllPushes(ms: seq<MessageDoc>, conns: map<UserId, Socket>): seq<Push>
    decreases |ms|
  {
    if ms == [] then [] else AllPushes(ms[..|ms| - 1], conns) + Pushes(ms[|ms| - 1], conns)
  }

  /**
   * messaging_websocket: the user is the token's "sub"; the socket is
   * registered before the first receive; then the frames are served.
   */
  method MessagingWebsocket(svc: Service, token: Option<Claims>, ws: Socket, frames: seq<Frame>) returns (end: SessionEnd)
    requires svc.Valid()
    modifies svc
    ensures svc.Valid()
    ensures token.None? || "sub" !in token.value ==>
              end == Refused && svc.activeConnections == old(svc.activeConnections) &&
              svc.conversations == old(svc.conversations) && svc.outbox == old(svc.outbox)
    ensures token.Some? && "sub" in token.value ==>
              var u := token.value["sub"];
              var conns := old(svc.activeConnections)[u := ws];
              var n := HandledCount(frames);
              var docs := Docs(frames[..n], u, conns);
              && svc.conversations == CS.StoreAll(old(svc.conversations), docs, Uuids(frames[..n]))
              && svc.outbox == old(svc.outbox) + AllPushes(docs, conns)
              && end == EndAfter(frames)
              && svc.activeConnections == (if end == Closed then conns - {u} else conns)
  {
    if token.None? || "sub" !in token.value {
      return Refused;
    }
    var userId := token.value["sub"];
    svc.Connect(userId, ws);
    end := ServeFrames(svc, userId, ws, frames);
  }

  /**
   * The `try: while True` of messaging_websocket: each received message is
   * sent (stored, and pushed when delivered) before the next receive; a
   * disconnect ends the loop and unregisters the user. A message without
   * `receiver_id` raises KeyError in the store and a frame that is not a
   * JSON object fails to decode; the handler catches neither, so the
   * session ends with the user still registered.
   */
  method ServeFrames(svc: Service, userId: UserId, ws: Socket, frames: seq<Frame>) returns (end: SessionEnd)
    requires svc.Valid()
    modifies svc
    ensures svc.Valid()
    ensures var conns := old(svc.activeConnections);
            var n := HandledCount(frames);
            var docs := Docs(frames[..n], userId, conns);
            && svc.conversations == CS.StoreAll(old(svc.conversations), docs, Uuids(frames[..n]))
            && svc.outbox == old(svc.outbox) + AllPushes(docs, conns)
            && end == EndAfter(frames)
            && svc.activeConnections == (if end == Closed then conns - {userId} else conns)
  {
    ghost var conns := svc.activeConnections;
    ghost var convs0 := svc.conversations;
    ghost var outbox0 := svc.outbox;
    var i := 0;
    end := Open;
    while i < |frames|
      invariant 0 <= i <= |frames|
      invariant forall j :: 0 <= j < i ==> Handles(frames[j])
      invariant svc.Valid()
      invariant svc.activeConnections == conns
      invariant Served(convs0, outbox0, frames[..i], userId, conns, svc.conversations, svc.outbox)
      invariant end == Open
    {
      var received := ReceiveMessage(frames[i]);
      if received.Err? {
        end := if received.error == Disconnect then Closed else Crashed(received.error.error);
        break;
      }
      ServeStep(convs0, outbox0, frames, i, userId, conns, svc.conversations, svc.outbox);
      var sent := svc.SendMessage(received.value, userId, frames[i].uuid);
      if sent.Fail? {
        end := Crashed(sent.error);
        break;
      }
      i := i + 1;
    }
    ServedAt(convs0, outbox0, frames, i, userId, conns, svc.conversations, svc.outbox);
    if end == Closed {
      svc.Disconnect(userId, ws);
    }
  }

  /** The store and the pushes after the loop has handled the frames fs. */
  ghost predicate Served(convs0: seq<Conversation>, outbox0: seq<Push>, fs: seq<Frame>, u: UserId, conns: map<UserId, Socket>,
                         convs: seq<Conversation>, outbox: seq<Push>)
    requires forall j :: 0 <= j < |fs| ==> Handles(fs[j])
  {
    && convs == CS.StoreAll(convs0, Docs(fs, u, conns), Uuids(fs))
    && outbox == outbox0 + AllPushes(Docs(fs, u, conns), conns)
  }

  /** Where the loop stops, what it has served is what the handled frames give. */
  lemma ServedAt(convs0: seq<Conversation>, outbox0: seq<Push>, fs: seq<Frame>, i: nat, u: UserId, conns: map<UserId, Socket>,
                 convs: seq<Conversation>, outbox: seq<Push>)
    requires i <= |fs| && (forall j :: 0 <= j < i ==> Handles(fs[j])) && (i < |fs| ==> !Handles(fs[i]))
    requires Served(convs0, outbox0, fs[..i], u, conns, convs, outbox)
    ensures var n := HandledCount(fs);
            var docs := Docs(fs[..n], u, conns);
            && n == i
            && convs == CS.StoreAll(convs0, docs, Uuids(fs[..n]))
            && outbox == outbox0 + AllPushes(docs, conns)
  {
    HandledCountAt(fs, i);
  }

  /**
   * Sending the message of frame i either fails because it names no
   * receiver, or extends the store and the pushes by that frame.
   */
  lemma ServeStep(convs0: seq<Conversation>, outbox0: seq<Push>, fs: seq<Frame>, i: nat, u: UserId, conns: map<UserId, Socket>,
                  convs: seq<Conversation>, outbox: seq<Push>)
    requires i < |fs| && fs[i].Json? && forall j :: 0 <= j < i ==> Handles(fs[j])
    requires Served(convs0, outbox0, fs[..i], u, conns, convs, outbox)
    ensures var m := Stamped(ReceiveMessage(fs[i]).value, u, conns);
            var s := CS.Store(convs, m, fs[i].uuid);
            && (s.Err? ==> !Handles(fs[i]) && s.error == KeyError("receiver_id"))
            && (s.Ok? ==> Handles(fs[i]) && Served(convs0, outbox0, fs[..i + 1], u, conns, s.value, outbox + Pushes(m, conns)))
  {
    var m := Stamped(ReceiveMessage(fs[i]).value, u, conns);
    if fs[i].doc.receiverId.Some? {
      DocsStep(fs, i, u, conns);
      FoldStep(convs0, Docs(fs[..i], u, conns), Uuids(fs[..i]), m, fs[i].uuid, conns);
    }
  }

  /**
   * One sender's messages to one receiver are stored in the order they were
   * received, after whatever their conversation already held.
   */
  lemma SessionKeepsOrder(convs: seq<Conversation>, frames: seq<Frame>, u: UserId, receiver: UserId, conns: map<UserId, Socket>)
    requires forall i :: 0 <= i < HandledCount(frames) ==> frames[i].doc.receiverId == Some(receiver)
    ensures var n := HandledCount(frames);
            var docs := Docs(frames[..n], u, conns);
            CS.PairMessages(CS.StoreAll(convs, docs, Uuids(frames[..n])), u, receiver) ==
            CS.PairMessages(convs, u, receiver) + docs
  {
    var n := HandledCount(frames);
    var docs := Docs(frames[..n], u, conns);
    forall i | 0 <= i < |docs|
      ensures CS.Storable(docs[i]) && CS.Between(docs[i], u, receiver)
    {
      assert frames[..n][i] == frames[i];
    }
    CS.StoreAllKeepsOrder(convs, docs, Uuids(frames[..n]), u, receiver);
  }

  /** The messages of ds addressed to r, in order. */
  function SentTo(ds: seq<MessageDoc>, r: UserId): (s: seq<MessageDoc>)
    ensures forall m :: m in s <==> m in ds && m.receiverId == Some(r)
    decreases |ds|
  {
    if ds == [] then []
    else
      var init, last := ds[..|ds| - 1], ds[|ds| - 1];
      assert ds == init + [last];
      SentTo(init, r) + (if last.receiverId == Some(r) then [last] else [])
  }

  /** When u sends every message, the messages between u and r are those sent to r. */
  lemma {:induction false} AmongIsSentTo(ds: seq<MessageDoc>, u: UserId, r: UserId)
    requires u != r && forall i :: 0 <= i < |ds| ==> ds[i].senderId == Some(u)
    ensures CS.Among(ds, u, r) == SentTo(ds, r)
    decreases |ds|
  {
    if ds != [] {
      AmongIsSentTo(ds[..|ds| - 1], u, r);
    }
  }

  /**
   * A session may switch receivers at will: each receiver's conversation
   * with the session's user gets exactly the messages sent to that receiver,
   * in the order they were received, after whatever it already held.
   */
  lemma SessionKeepsOrderPerReceiver(convs: seq<Conversation>, frames: seq<Frame>, u: UserId, r: UserId, conns: map<UserId, Socket>)
    requires CS.WellFormed(convs) && u != r
    requires forall i :: 0 <= i < HandledCount(frames) ==> frames[i].doc.receiverId != Some(u)
    ensures var n := HandledCount(frames);
            var docs := Docs(frames[..n], u, conns);
            CS.PairMessages(CS.StoreAll(convs, docs, Uuids(frames[..n])), u, r) ==
            CS.PairMessages(convs, u, r) + SentTo(docs, r)
  {
    var n := HandledCount(frames);
    var docs := Docs(frames[..n], u, conns);
    forall i | 0 <= i < |docs|
      ensures CS.Storable(docs[i]) && docs[i].senderId == Some(u) && docs[i].receiverId.value != u
    {
      assert frames[..n][i] == frames[i];
    }
    CS.StoreAllPairOrder(convs, docs, Uuids(frames[..n]), u, r);
    AmongIsSentTo(docs, u, r);
  }

  /** Nothing is pushed for messages whose receivers have no live socket. */
  lemma {:induction false} NoPushToOfflineReceivers(ms: seq<MessageDoc>, conns: map<UserId, Socket>)
    requires forall i :: 0 <= i < |ms| ==> ms[i].receiverId.None? || ms[i].receiverId.value !in conns
    ensures AllPushes(ms, conns) == []
    decreases |ms|
  {
    if ms != [] {
      NoPushToOfflineReceivers(ms[..|ms| - 1], conns);
    }
  }

  /** Every push goes to the receiver's registered socket and carries a non-empty text. */
  lemma {:induction false} PushesGoToRegisteredSockets(ms: seq<MessageDoc>, conns: map<UserId, Socket>)
    ensures forall p :: p in AllPushes(ms, conns) ==> p.receiver in conns && p.socket == conns[p.receiver] && p.text != ""
    decreases |ms|
  {
    if ms != [] {
      PushesGoToRegisteredSockets(ms[..|ms| - 1], conns);
    }
  }

  // ---------------------------------------------------------------------
  // The handler exactly as written
  // ---------------------------------------------------------------------

  /**
   * messaging_websocket as written. It calls `send_message(message)` without
   * the user id, so the first received message raises TypeError, which the
   * except clause does not catch. It calls the coroutine `disconnect(...)`
   * without awaiting it, so the user is never removed from the registry.
   */
  function SessionAsWritten(conns: map<UserId, Socket>, convs: seq<Conversation>, token: Option<Claims>, ws: Socket, frames: seq<Frame>):
    (r: (SessionEnd, map<UserId, Socket>, seq<Conversation>))
    ensures r.2 == convs
    ensures token.Some? && "sub" in token.value ==> r.1 == conns[token.value["sub"] := ws] && r.0 != Refused
    ensures r.0 != Open ==> |frames| > 0 || r.0 == Refused
  {
    if token.None? || "sub" !in token.value then (Refused, conns, convs)
    else
      var registered := conns[token.value["sub"] := ws];
      if frames == [] then (Open, registered, convs)
      else
        match ReceiveMessage(frames[0])
        case Ok(_) => (Crashed(TypeError), registered, convs)
        case Err(Disconnect) => (Closed, registered, convs)
        case Err(Malformed(e)) => (Crashed(e), registered, convs)
  }

  /**
   * As written, one message to a named receiver crashes the session and is
   * lost, where the corrected handler stores it as the pair's latest message.
   */
  lemma AsWrittenLosesTheFirstMessage(conns: map<UserId, Socket>, convs: seq<Conversation>, ws: Socket, u: UserId, m: MessageDoc, at: string, uuid: string)
    requires m.receiverId.Some?
    ensures var frames := [Json(m, at, uuid)];
            && SessionAsWritten(conns, convs, Some(map["sub" := u]), ws, frames) == (Crashed(TypeError), conns[u := ws], convs)
            && HandledCount(frames) == 1 && EndAfter(frames) == Open
            && var docs := Docs(frames, u, conns[u := ws]);
               CS.PairMessages(CS.StoreAll(convs, docs, Uuids(frames)), u, m.receiverId.value) ==
               CS.PairMessages(convs, u, m.receiverId.value) + docs
  {
    var frames := [Json(m, at, uuid)];
    assert HandledCount(frames[1..]) == 0;
    SessionKeepsOrder(convs, frames, u, m.receiverId.value, conns[u := ws]);
    assert frames[..1] == frames;
  }

  /**
   * As written, a client that closes its socket stays registered, where the
   * corrected handler ends the session as Closed and unregisters it.
   */
  lemma AsWrittenCloseKeepsRegistration(conns: map<UserId, Socket>, convs: seq<Conversation>, ws: Socket, u: UserId)
    ensures var r := SessionAsWritten(conns, convs, Some(map["sub" := u]), ws, [ClientClosed]);
            r.0 == Closed && u in r.1 && r.1[u] == ws
    ensures EndAfter([ClientClosed]) == Closed
  {
  }
}
