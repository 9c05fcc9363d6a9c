/**
 * The "conversations" collection as the messaging service uses it
 * (backend/app/services/messaging_service.py, store_message,
 * get_conversation and get_user_conversation_history): a sequence of
 * conversation documents in natural order, with the semantics of the
 * MongoDB operations the service issues on it.
 */
module ConversationStore {
  import opened Wrappers
  import opened PyValues
  import opened Messages

  /** The filter `{"users": {"$all": [a, b]}}` matches c: both ids are among its users. */
  predicate Involves(c: Conversation, a: UserId, b: UserId) {
    a in c.users && b in c.users
  }

  /**
   * The document `update_one` / `find_one` with that filter picks: the
   * first conversation, in natural order, that involves both users.
   */
  function FindPair(convs: seq<Conversation>, a: UserId, b: UserId): (r: Option<nat>)
    ensures r.Some? ==> r.value < |convs| && Involves(convs[r.value], a, b)
    ensures r.Some? ==> forall j :: 0 <= j < r.value ==> !Involves(convs[j], a, b)
    ensures r.None? ==> forall j :: 0 <= j < |convs| ==> !Involves(convs[j], a, b)
  {
    if convs == [] then None
    else if Involves(convs[0], a, b) then Some(0)
    else
      match FindPair(convs[1..], a, b)
      case Some(i) => Some(i + 1)
      case None => None
  }

  /** The conversation (a, b) and (b, a) find is the same one. */
  lemma {:induction false} FindPairSymmetric(convs: seq<Conversation>, a: UserId, b: UserId)
    ensures FindPair(convs, a, b) == FindPair(convs, b, a)
  {
    if convs != [] {
      FindPairSymmetric(convs[1..], a, b);
    }
  }

  /** FindPair looks at nothing but the users of each document. */
  lemma {:induction false} FindPairUsersOnly(c1: seq<Conversation>, c2: seq<Conversation>, a: UserId, b: UserId)
    requires |c1| == |c2| && forall j :: 0 <= j < |c1| ==> c1[j].users == c2[j].users
    ensures FindPair(c1, a, b) == FindPair(c2, a, b)
  {
    if c1 != [] {
      FindPairUsersOnly(c1[1..], c2[1..], a, b);
    }
  }

  /** Appending a document changes the find only when nothing earlier matched. */
  lemma {:induction false} FindPairAppend(convs: seq<Conversation>, c: Conversation, a: UserId, b: UserId)
    ensures FindPair(convs + [c], a, b) ==
            if FindPair(convs, a, b).Some? then FindPair(convs, a, b)
            else if Involves(c, a, b) then Some(|convs|) else None
  {
    if convs != [] {
      assert (convs + [c])[1..] == convs[1..] + [c];
      FindPairAppend(convs[1..], c, a, b);
    }
  }

  /** The messages of the conversation between a and b, or [] when there is none yet. */
  function PairMessages(convs: seq<Conversation>, a: UserId, b: UserId): seq<MessageDoc> {
    match FindPair(convs, a, b)
    case Some(i) => convs[i].messages
    case None => []
  }

  /** Which user is named first does not change the pair's messages. */
  lemma PairMessagesSymmetric(convs: seq<Conversation>, a: UserId, b: UserId)
    ensures PairMessages(convs, a, b) == PairMessages(convs, b, a)
  {
    FindPairSymmetric(convs, a, b);
  }

  /** The keys store_message reads from the message are present. */
  predicate Storable(m: MessageDoc) {
    m.senderId.Some? && m.receiverId.Some? && m.timestamp.Some?
  }

  /** m goes between a and b, in either direction. */
  predicate Between(m: MessageDoc, a: UserId, b: UserId) {
    m.senderId.Some? && m.receiverId.Some? &&
    ((m.senderId.value == a && m.receiverId.value == b) || (m.senderId.value == b && m.receiverId.value == a))
  }

  /**
   * store_message: `update_one` pushes m onto the first conversation whose
   * users include sender and receiver; when none matched, a new document
   * `{conversation_id: "conv" + uuid, users: [sender, receiver],
   * messages: [m], created_at: m.timestamp}` is inserted. A missing
   * `sender_id` or `receiver_id` raises KeyError before the update, a missing
   * `timestamp` raises KeyError before the insert.
   */
  function Store(convs: seq<Conversation>, m: MessageDoc, uuid: string): (r: Result<seq<Conversation>, PyError>)
    ensures Storable(m) ==> r.Ok?
    ensures m.senderId.None? ==> r == Err(KeyError("sender_id"))
    ensures m.senderId.Some? && m.receiverId.None? ==> r == Err(KeyError("receiver_id"))
    ensures r.Err? ==> m.senderId.None? || m.receiverId.None? ||
                       (m.timestamp.None? && FindPair(convs, m.senderId.value, m.receiverId.value).None?)
  {
    if m.senderId.None? then Err(KeyError("sender_id"))
    else if m.receiverId.None? then Err(KeyError("receiver_id"))
    else
      var s, t := m.senderId.value, m.receiverId.value;
      match FindPair(convs, s, t)
      case Some(i) => Ok(convs[i := convs[i].(messages := convs[i].messages + [m])])
      case None =>
        if m.timestamp.None? then Err(KeyError("timestamp"))
        else Ok(convs + [Conversation("conv" + uuid, [s, t], [m], m.timestamp.value)])
  }

  /** When the pair already has a conversation, m goes last in it and nothing else changes. */
  lemma StoreAppendsToPairConversation(convs: seq<Conversation>, m: MessageDoc, uuid: string)
    requires m.senderId.Some? && m.receiverId.Some?
    requires FindPair(convs, m.senderId.value, m.receiverId.value).Some?
    ensures var i := FindPair(convs, m.senderId.value, m.receiverId.value).value;
            var r := Store(convs, m, uuid);
            && r.Ok? && |r.value| == |convs|
            && r.value[i] == convs[i].(messages := convs[i].messages + [m])
            && forall j :: 0 <= j < |convs| && j != i ==> r.value[j] == convs[j]
  {
  }

  /** When the pair has no conversation, exactly one new conversation holding m is added at the end. */
  lemma StoreInsertsNewConversation(convs: seq<Conversation>, m: MessageDoc, uuid: string)
    requires Storable(m)
    requires FindPair(convs, m.senderId.value, m.receiverId.value).None?
    ensures Store(convs, m, uuid) ==
            Ok(convs + [Conversation("conv" + uuid, [m.senderId.value, m.receiverId.value], [m], m.timestamp.value)])
  {
  }

  /**
   * Storing is append-only: no document disappears, each keeps its id,
   * users and creation time, each old message list is a prefix of the new
   * one, at most one document is added, and m is now the last message of the
   * conversation its sender and receiver find.
   */
  lemma StoreIsAppendOnly(convs: seq<Conversation>, m: MessageDoc, uuid: string)
    requires Storable(m)
    ensures var r := Store(convs, m, uuid).value;
            && |convs| <= |r| <= |convs| + 1
            && (forall j :: 0 <= j < |convs| ==>
                  r[j].conversationId == convs[j].conversationId && r[j].users == convs[j].users &&
                  r[j].createdAt == convs[j].createdAt && convs[j].messages <= r[j].messages)
            && PairMessages(r, m.senderId.value, m.receiverId.value) ==
               PairMessages(convs, m.senderId.value, m.receiverId.value) + [m]
  {
    StorePairMessages(convs, m, uuid);
  }

  /** After a store, the pair's conversation is the old one with m appended, or [m] if it is new. */
  lemma StorePairMessages(convs: seq<Conversation>, m: MessageDoc, uuid: string)
    requires Storable(m)
    ensures PairMessages(Store(convs, m, uuid).value, m.senderId.value, m.receiverId.value) ==
            PairMessages(convs, m.senderId.value, m.receiverId.value) + [m]
  {
    var s, t := m.senderId.value, m.receiverId.value;
    var r := Store(convs, m, uuid).value;
    match FindPair(convs, s, t)
    case Some(i) =>
      FindPairUsersOnly(convs, r, s, t);
    case None =>
      var c := Conversation("conv" + uuid, [s, t], [m], m.timestamp.value);
      FindPairAppend(convs, c, s, t);
  }

  /** Storing a sequence of messages, first to last; `ids` are the uuids each store would draw. */
  function StoreAll(convs: seq<Conversation>, ms: seq<MessageDoc>, ids: seq<string>): seq<Conversation>
    requires |ms| == |ids| && forall i :: 0 <= i < |ms| ==> Storable(ms[i])
    decreases |ms|
  {
    if ms == [] then convs
    else Store(StoreAll(convs, ms[..|ms| - 1], ids[..|ids| - 1]), ms[|ms| - 1], ids[|ids| - 1]).value
  }

  /**
   * Messages exchanged between a and b, in either direction, end up in one
   * conversation, in the order they were stored, after whatever it held.
   */
  lemma {:induction false} StoreAllKeepsOrder(convs: seq<Conversation>, ms: seq<MessageDoc>, ids: seq<string>, a: UserId, b: UserId)
    requires |ms| == |ids| && forall i :: 0 <= i < |ms| ==> Storable(ms[i]) && Between(ms[i], a, b)
    ensures PairMessages(StoreAll(convs, ms, ids), a, b) == PairMessages(convs, a, b) + ms
    decreases |ms|
  {
    if ms != [] {
      var n := |ms| - 1;
      var init, m := ms[..n], ms[n];
      assert ms == init + [m];
      StoreAllKeepsOrder(convs, init, ids[..n], a, b);
      var before := StoreAll(convs, init, ids[..n]);
      assert StoreAll(convs, ms, ids) == Store(before, m, ids[n]).value;
      StoreBetweenStep(before, m, ids[n], a, b);
      AppendAssoc(PairMessages(convs, a, b), init, [m]);
    }
  }

  /** Storing a message between a and b appends it to their messages, whichever of them sent it. */
  lemma StoreBetweenStep(convs: seq<Conversation>, m: MessageDoc, uuid: string, a: UserId, b: UserId)
    requires Storable(m) && Between(m, a, b)
    ensures PairMessages(Store(convs, m, uuid).value, a, b) == PairMessages(convs, a, b) + [m]
  {
    StorePairMessages(convs, m, uuid);
    PairMessagesSymmetric(convs, a, b);
    PairMessagesSymmetric(Store(convs, m, uuid).value, a, b);
  }

  /** No two conversations involve the same two distinct users. */
  ghost predicate PairUnique(convs: seq<Conversation>) {
    forall i, j, a, b ::
      (0 <= i < |convs| && 0 <= j < |convs| && a != b && Involves(convs[i], a, b) && Involves(convs[j], a, b)) ==> i == j
  }

  /** The collection's invariant: every conversation is between two users, and at most one per pair. */
  ghost predicate WellFormed(convs: seq<Conversation>) {
    (forall i :: 0 <= i < |convs| ==> |convs[i].users| == 2) && PairUnique(convs)
  }

  /** store_message keeps at most one conversation per pair of users. */
  lemma StorePreservesWellFormed(convs: seq<Conversation>, m: MessageDoc, uuid: string)
    requires WellFormed(convs)
    requires Store(convs, m, uuid).Ok?
    ensures WellFormed(Store(convs, m, uuid).value)
  {
    var s, t := m.senderId.value, m.receiverId.value;
    var r := Store(convs, m, uuid).value;
    if FindPair(convs, s, t).None? {
      var c := r[|convs|];
      forall i, j, a, b | 0 <= i < |r| && 0 <= j < |r| && a != b && Involves(r[i], a, b) && Involves(r[j], a, b)
        ensures i == j
      {
        if i == |convs| && j < |convs| {
          assert Involves(convs[j], s, t);
        } else if j == |convs| && i < |convs| {
          assert Involves(convs[i], s, t);
        } else if i < |convs| && j < |convs| {
          assert Involves(convs[i], a, b) && Involves(convs[j], a, b);
        }
      }
    } else {
      var k := FindPair(convs, s, t).value;
      forall i, j, a, b | 0 <= i < |r| && 0 <= j < |r| && a != b && Involves(r[i], a, b) && Involves(r[j], a, b)
        ensures i == j
      {
        assert r[i].users == convs[i].users && r[j].users == convs[j].users;
        assert Involves(convs[i], a, b) && Involves(convs[j], a, b);
      }
    }
  }

  /**
   * A message between two distinct users leaves every other pair's
   * conversation as it was.
   */
  lemma StoreLeavesOtherPairs(convs: seq<Conversation>, m: MessageDoc, uuid: string, a: UserId, b: UserId)
    requires WellFormed(convs) && Storable(m) && m.senderId.value != m.receiverId.value
    requires a != b && !Between(m, a, b)
    ensures PairMessages(Store(convs, m, uuid).value, a, b) == PairMessages(convs, a, b)
  {
    var s, t := m.senderId.value, m.receiverId.value;
    var r := Store(convs, m, uuid).value;
    match FindPair(convs, s, t)
    case Some(k) =>
      FindPairUsersOnly(convs, r, a, b);
      if FindPair(convs, a, b) == Some(k) {
        TwoUsersFixTheirPair(convs[k].users, s, t, a, b);
      }
    case None =>
      var c := Conversation("conv" + uuid, [s, t], [m], m.timestamp.value);
      FindPairAppend(convs, c, a, b);
  }

  lemma AppendAssoc<T>(x: seq<T>, y: seq<T>, z: seq<T>)
    ensures (x + y) + z == x + (y + z)
  {
  }

  /** The messages of ms that go between a and b, in either direction, in their order in ms. */
  function Among(ms: seq<MessageDoc>, a: UserId, b: UserId): (r: seq<MessageDoc>)
    ensures |r| <= |ms|
    ensures forall m :: m in r <==> m in ms && Between(m, a, b)
    decreases |ms|
  {
    if ms == [] then []
    else
      var init, last := ms[..|ms| - 1], ms[|ms| - 1];
      assert ms == init + [last];
      Among(init, a, b) + (if Between(last, a, b) then [last] else [])
  }

  /**
   * One store of a message between two distinct users keeps the collection
   * well formed and adds the message to its own pair's conversation only.
   */
  lemma StorePairStep(convs: seq<Conversation>, m: MessageDoc, uuid: string, a: UserId, b: UserId)
    requires WellFormed(convs) && Storable(m) && m.senderId.value != m.receiverId.value && a != b
    ensures WellFormed(Store(convs, m, uuid).value)
    ensures PairMessages(Store(convs, m, uuid).value, a, b) ==
            PairMessages(convs, a, b) + (if Between(m, a, b) then [m] else [])
  {
    StorePreservesWellFormed(convs, m, uuid);
    if Between(m, a, b) {
      StorePairMessages(convs, m, uuid);
      PairMessagesSymmetric(convs, a, b);
      PairMessagesSymmetric(Store(convs, m, uuid).value, a, b);
    } else {
      StoreLeavesOtherPairs(convs, m, uuid, a, b);
    }
  }

  /**
   * Storing a run of messages, each between two distinct users, keeps the
   * collection well formed, and every pair's conversation receives exactly
   * the messages of that pair, in the order they were stored, whatever
   * other pairs' messages are interleaved with them.
   */
  lemma {:induction false} StoreAllPairOrder(convs: seq<Conversation>, ms: seq<MessageDoc>, ids: seq<string>, a: UserId, b: UserId)
    requires WellFormed(convs) && a != b
    requires |ms| == |ids| && forall i :: 0 <= i < |ms| ==> Storable(ms[i]) && ms[i].senderId.value != ms[i].receiverId.value
    ensures WellFormed(StoreAll(convs, ms, ids))
    ensures PairMessages(StoreAll(convs, ms, ids), a, b) == PairMessages(convs, a, b) + Among(ms, a, b)
    decreases |ms|
  {
    if ms != [] {
      var n := |ms| - 1;
      var init, m := ms[..n], ms[n];
      assert ms == init + [m];
      StoreAllPairOrder(convs, init, ids[..n], a, b);
      var before := StoreAll(convs, init, ids[..n]);
      assert StoreAll(convs, ms, ids) == Store(before, m, ids[n]).value;
      StorePairStep(before, m, ids[n], a, b);
      var added := if Between(m, a, b) then [m] else [];
      assert Among(ms, a, b) == Among(init, a, b) + added;
      AppendAssoc(PairMessages(convs, a, b), Among(init, a, b), added);
    }
  }

  /** A two-element user list holding two distinct pairs is impossible. */
  lemma TwoUsersFixTheirPair(users: seq<UserId>, s: UserId, t: UserId, a: UserId, b: UserId)
    requires |users| == 2 && s != t && a != b
    requires s in users && t in users && a in users && b in users
    ensures (a == s && b == t) || (a == t && b == s)
  {
  }

  /** get_user_conversation_history: `find({"users": u})`, the conversations u takes part in, in order. */
  function History(convs: seq<Conversation>, u: UserId): (r: seq<Conversation>)
    ensures forall c :: c in r <==> c in convs && u in c.users
    ensures |r| <= |convs|
  {
    if convs == [] then []
    else (if u in convs[0].users then [convs[0]] else []) + History(convs[1..], u)
  }

  /** A stored message is visible in the history of both its sender and its receiver. */
  lemma StoredMessageInHistory(convs: seq<Conversation>, m: MessageDoc, uuid: string)
    requires Storable(m)
    ensures var r := Store(convs, m, uuid).value;
            && (exists c :: c in History(r, m.receiverId.value) && m in c.messages)
            && (exists c :: c in History(r, m.senderId.value) && m in c.messages)
  {
    var s, t := m.senderId.value, m.receiverId.value;
    var r := Store(convs, m, uuid).value;
    StorePairMessages(convs, m, uuid);
    var k := FindPair(r, s, t).value;
    assert m in r[k].messages;
    assert r[k] in History(r, t) && r[k] in History(r, s);
  }

  /** get_conversation: `find_one` with the pair filter, the first conversation involving both users. */
  function Lookup(convs: seq<Conversation>, a: UserId, b: UserId): (r: Option<Conversation>)
    ensures r.Some? <==> exists j :: 0 <= j < |convs| && Involves(convs[j], a, b)
    ensures r.Some? ==> r.value in convs && Involves(r.value, a, b)
  {
    match FindPair(convs, a, b)
    case Some(i) => Some(convs[i])
    case None => None
  }

  /** In a well-formed collection the lookup finds THE conversation of two distinct users. */
  lemma LookupFindsThePair(convs: seq<Conversation>, a: UserId, b: UserId, j: nat)
    requires PairUnique(convs) && a != b
    requires j < |convs| && Involves(convs[j], a, b)
    ensures Lookup(convs, a, b) == Some(convs[j]) && Lookup(convs, b, a) == Some(convs[j])
  {
    FindPairSymmetric(convs, a, b);
    var i := FindPair(convs, a, b).value;
    assert Involves(convs[i], a, b) && Involves(convs[j], a, b);
  }

  // -------------------------------------------------------------------------
  // store_message and get_conversation as written
  // -------------------------------------------------------------------------

  /**
   * store_message as written. The insert builds a ConversationResponse,
   * which has no `users` field, so pydantic drops the users it is given
   * and the stored document has none; and it first validates the message
   * as a MessageResponse, which needs a conversation_id, so a message that
   * opens a conversation (conversation_id null, as MessageCreate
   * documents) raises ValidationError and is not stored. The validated
   * message is stored without its status.
   */
  function StoreAsWritten(convs: seq<Conversation>, m: MessageDoc, uuid: string): (r: Result<seq<Conversation>, PyError>)
    ensures m.senderId.None? ==> r == Err(KeyError("sender_id"))
    ensures m.senderId.Some? && m.receiverId.None? ==> r == Err(KeyError("receiver_id"))
    ensures m.senderId.Some? && m.receiverId.Some? && FindPair(convs, m.senderId.value, m.receiverId.value).Some? ==>
              r == Store(convs, m, uuid)
    ensures m.senderId.Some? && m.receiverId.Some? && FindPair(convs, m.senderId.value, m.receiverId.value).None? ==>
              (r.Err? <==> ToResponse(m).None?) &&
              (r.Err? ==> r.error == ValidationError) &&
              (r.Ok? ==> r.value == convs + [Conversation("conv" + uuid, [], [m.(status := None)], m.timestamp.value)])
  {
    if m.senderId.None? then Err(KeyError("sender_id"))
    else if m.receiverId.None? then Err(KeyError("receiver_id"))
    else
      match FindPair(convs, m.senderId.value, m.receiverId.value)
      case Some(i) => Ok(convs[i := convs[i].(messages := convs[i].messages + [m])])
      case None =>
        match ToResponse(m)
        case None => Err(ValidationError)
        case Some(resp) =>
          Ok(convs + [Conversation("conv" + uuid, [], [m.(status := None)], resp.timestamp)])
  }

  /**
   * The first message between two users, which carries no conversation_id,
   * is lost as written (ValidationError), where the intended store keeps
   * it in a new conversation of the two.
   */
  lemma AsWrittenLosesOpeningMessage(convs: seq<Conversation>, m: MessageDoc, uuid: string)
    requires Storable(m) && m.conversationId.None?
    requires FindPair(convs, m.senderId.value, m.receiverId.value).None?
    ensures StoreAsWritten(convs, m, uuid) == Err(ValidationError)
    ensures Store(convs, m, uuid).Ok? && m in PairMessages(Store(convs, m, uuid).value, m.senderId.value, m.receiverId.value)
  {
    StorePairMessages(convs, m, uuid);
  }

  /**
   * As written, no stored conversation has users: no pair filter ever
   * matches again, every later message that validates opens yet another
   * conversation, and every user's history stays empty.
   */
  lemma AsWrittenConversationsAreUnreachable(convs: seq<Conversation>, m: MessageDoc, uuid: string, u: UserId)
    requires forall j :: 0 <= j < |convs| ==> convs[j].users == []
    requires StoreAsWritten(convs, m, uuid).Ok?
    ensures var r := StoreAsWritten(convs, m, uuid).value;
            && |r| == |convs| + 1
            && (forall j :: 0 <= j < |r| ==> r[j].users == [])
            && History(r, u) == []
  {
    var r := StoreAsWritten(convs, m, uuid).value;
    assert FindPair(convs, m.senderId.value, m.receiverId.value).None?;
    NoUsersNoHistory(r, u);
  }

  /** A user who takes part in no conversation has an empty history. */
  lemma {:induction false} NoUsersNoHistory(convs: seq<Conversation>, u: UserId)
    requires forall j :: 0 <= j < |convs| ==> u !in convs[j].users
    ensures History(convs, u) == []
  {
    if convs != [] {
      NoUsersNoHistory(convs[1..], u);
    }
  }

  /** get_conversation as written: the document is looked up but never returned, so the call yields None. */
  function GetConversationAsWritten(convs: seq<Conversation>, a: UserId, b: UserId): (r: Option<Conversation>)
    ensures r == None
  {
    None
  }

  /** As written get_conversation answers None even for the pair's own conversation, which the lookup finds. */
  lemma AsWrittenGetConversationMissesThePair(convs: seq<Conversation>, a: UserId, b: UserId, j: nat)
    requires j < |convs| && Involves(convs[j], a, b)
    ensures Lookup(convs, a, b).Some? && GetConversationAsWritten(convs, a, b).None?
  {
  }
}
