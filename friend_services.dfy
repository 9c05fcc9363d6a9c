/**
 * The friend-request store (backend/app/services/friend_services.py): the
 * "friend_requests" and "friendships" collections, duplicate suppression
 * on sending, friendship creation on acceptance, and the friend list.
 *
 * The main model follows what the method's comments and the surrounding
 * code describe for update_friend_request_status: the request lookup is
 * awaited and the status update goes to the requests collection.
 * UpdateStatusAsWritten models the method as it is written.
 */
module FriendServices {
  import opened Wrappers
  import opened PyValues

  type UserId = string

  /** A document of "friend_requests": its `_id` (as str(ObjectId)), the two users, the status and the creation time. */
  datatype FriendRequest = FriendRequest(id: string, senderId: UserId, recipientId: UserId, status: string, createdAt: string)

  /** A document of "friendships". */
  datatype Friendship = Friendship(user1: UserId, user2: UserId, createdAt: string)

  predicate IsHexDigit(c: char) {
    '0' <= c <= '9' || 'a' <= c <= 'f' || 'A' <= c <= 'F'
  }

  /** bson's ObjectId.is_valid on a str: exactly 24 hexadecimal digits. */
  predicate IsValidObjectId(s: string) {
    |s| == 24 && forall i :: 0 <= i < |s| ==> IsHexDigit(s[i])
  }

  function LowerHex(c: char): (d: char)
    ensures IsHexDigit(c) ==> IsHexDigit(d) && !('A' <= d <= 'F')
  {
    if 'A' <= c <= 'F' then (c as int - 'A' as int + 'a' as int) as char else c
  }

  /** str(ObjectId(s)): the same twelve bytes, spelled in lower-case hex. */
  function Canonical(s: string): (r: string)
    requires IsValidObjectId(s)
    ensures IsValidObjectId(r) && |r| == |s|
    ensures forall i :: 0 <= i < |r| ==> !('A' <= r[i] <= 'F')
    ensures forall i :: 0 <= i < |s| ==> r[i] == s[i] || ('A' <= s[i] <= 'F' && r[i] as int == s[i] as int + 32)
  {
    seq(|s|, i requires 0 <= i < |s| => LowerHex(s[i]))
  }

  /** c and d are the same hexadecimal digit, perhaps written in different case. */
  predicate SameDigit(c: char, d: char) {
    c == d || ('A' <= c <= 'F' && d as int == c as int + 32) || ('A' <= d <= 'F' && c as int == d as int + 32)
  }

  /**
   * Two spellings of an ObjectId name the same id exactly when they differ
   * only in the case of their letters.
   */
  lemma CanonicalIdentifies(s: string, t: string)
    requires IsValidObjectId(s) && IsValidObjectId(t)
    ensures Canonical(s) == Canonical(t) <==> forall i :: 0 <= i < 24 ==> SameDigit(s[i], t[i])
  {
    var cs, ct := Canonical(s), Canonical(t);
    if cs == ct {
      forall i | 0 <= i < 24
        ensures SameDigit(s[i], t[i])
      {
        assert cs[i] == ct[i];
      }
    }
    if forall i :: 0 <= i < 24 ==> SameDigit(s[i], t[i]) {
      forall i | 0 <= i < 24
        ensures cs[i] == ct[i]
      {
        assert SameDigit(s[i], t[i]);
      }
      assert cs == ct;
    }
  }

  /** An id as the database hands it out: valid, and already in lower case. */
  predicate IsCanonicalId(s: string) {
    IsValidObjectId(s) && Canonical(s) == s
  }

  /** Canonical spelling is idempotent. */
  lemma CanonicalIsCanonical(s: string)
    requires IsValidObjectId(s)
    ensures IsCanonicalId(Canonical(s))
  {
    var c := Canonical(s);
    assert forall i :: 0 <= i < |c| ==> LowerHex(c[i]) == c[i];
  }

  /** `find_one({"sender_id": s, "recipient_id": t})`: the first request from s to t, if any. */
  function FindRequest(rs: seq<FriendRequest>, s: UserId, t: UserId): (r: Option<nat>)
    ensures r.Some? ==> r.value < |rs| && rs[r.value].senderId == s && rs[r.value].recipientId == t
    ensures r.Some? ==> forall j :: 0 <= j < r.value ==> !(rs[j].senderId == s && rs[j].recipientId == t)
    ensures r.None? ==> forall j :: 0 <= j < |rs| ==> !(rs[j].senderId == s && rs[j].recipientId == t)
  {
    if rs == [] then None
    else if rs[0].senderId == s && rs[0].recipientId == t then Some(0)
    else match FindRequest(rs[1..], s, t)
      case None => None
      case Some(k) => Some(k + 1)
  }

  /** The first request whose `_id` is id, if any. */
  function IndexOfId(rs: seq<FriendRequest>, id: string): (r: Option<nat>)
    ensures r.Some? ==> r.value < |rs| && rs[r.value].id == id
    ensures r.Some? ==> forall j :: 0 <= j < r.value ==> rs[j].id != id
    ensures r.None? ==> forall j :: 0 <= j < |rs| ==> rs[j].id != id
  {
    if rs == [] then None
    else if rs[0].id == id then Some(0)
    else match IndexOfId(rs[1..], id)
      case None => None
      case Some(k) => Some(k + 1)
  }

  /**
   * `update_one({"_id": id}, {"$set": {"status": status}})` on the requests:
   * the first request with that id takes the status; the count is 1 when
   * its status changed and 0 otherwise (MongoDB does not count a write of
   * the same value), and 0 when no request has the id.
   */
  function SetStatus(rs: seq<FriendRequest>, id: string, status: string): (r: (seq<FriendRequest>, nat))
    ensures |r.0| == |rs|
    ensures forall j :: 0 <= j < |rs| ==> r.0[j].(status := rs[j].status) == rs[j]
    ensures forall j :: 0 <= j < |rs| && r.0[j] != rs[j] ==> rs[j].id == id && r.0[j].status == status
    ensures r.1 <= 1
    ensures r.1 == 1 <==> exists j :: 0 <= j < |rs| && r.0[j] != rs[j]
    ensures IndexOfId(rs, id).Some? ==> r.0[IndexOfId(rs, id).value].status == status
  {
    match IndexOfId(rs, id)
    case None => (rs, 0)
    case Some(i) =>
      var rs' := rs[i := rs[i].(status := status)];
      if rs[i].status == status then
        assert rs' == rs;
        (rs', 0)
      else (rs', 1)
  }

  /** `find({"$or": [{"user1_id": u}, {"user2_id": u}]})`: the friendships u is part of, in stored order. */
  function FriendsOf(fs: seq<Friendship>, u: UserId): (r: seq<Friendship>)
    ensures |r| <= |fs|
    ensures forall f :: f in r <==> f in fs && (f.user1 == u || f.user2 == u)
  {
    if fs == [] then []
    else if fs[0].user1 == u || fs[0].user2 == u then [fs[0]] + FriendsOf(fs[1..], u)
    else FriendsOf(fs[1..], u)
  }

  /** Request ids are distinct database ids. */
  ghost predicate IdsWellFormed(rs: seq<FriendRequest>) {
    && (forall j :: 0 <= j < |rs| ==> IsCanonicalId(rs[j].id))
    && (forall i, j :: 0 <= i < j < |rs| ==> rs[i].id != rs[j].id)
  }

  /** The two collections FriendServices works on. */
  class FriendServices {
    var requests: seq<FriendRequest>
    var friendships: seq<Friendship>

    ghost predicate Valid()
      reads this
    {
      IdsWellFormed(requests)
    }

    constructor ()
      ensures Valid() && requests == [] && friendships == []
    {
      requests := [];
      friendships := [];
    }

    /**
     * send_friend_request: nothing is inserted and None is returned when a
     * request from the sender to the recipient exists already (a request
     * the other way round does not count); otherwise one "pending" request
     * is inserted and its new id returned. The id the database assigns and
     * the import-time default of created_at are parameters.
     */
    method SendFriendRequest(senderId: UserId, recipientId: UserId, newId: string, createdAt: string) returns (r: Option<string>)
      requires Valid()
      requires IsCanonicalId(newId) && forall j :: 0 <= j < |requests| ==> requests[j].id != newId
      modifies this
      ensures Valid()
      ensures friendships == old(friendships)
      ensures FindRequest(old(requests), senderId, recipientId).Some? ==> r == None && requests == old(requests)
      ensures FindRequest(old(requests), senderId, recipientId).None? ==>
                r == Some(newId) && requests == old(requests) + [FriendRequest(newId, senderId, recipientId, "pending", createdAt)]
    {
      var existing := FindRequest(requests, senderId, recipientId);
      if existing.Some? {
        return None;  // avoid sending the same request twice
      }
      requests := requests + [FriendRequest(newId, senderId, recipientId, "pending", createdAt)];
      r := Some(newId);
    }

    /** get_request_by_id: None for a malformed id, without a lookup; otherwise the request with that ObjectId, if any. */
    function GetRequestById(requestId: string): (r: Option<FriendRequest>)
      reads this
      ensures !IsValidObjectId(requestId) ==> r == None
      ensures r.Some? ==> r.value in requests && r.value.id == Canonical(requestId)
      ensures IsValidObjectId(requestId) && (exists j :: 0 <= j < |requests| && requests[j].id == Canonical(requestId)) ==> r.Some?
    {
      if !IsValidObjectId(requestId) then None
      else match IndexOfId(requests, Canonical(requestId))
        case None => None
        case Some(i) => Some(requests[i])
    }

    /**
     * update_friend_request_status: None when no request has the id;
     * otherwise accepting first inserts the friendship sender-recipient
     * (created now), any status is then set on the request, and the
     * number of modified requests is returned.
     */
    method UpdateFriendRequestStatus(requestId: string, status: string, now: string) returns (r: Option<nat>)
      requires Valid()
      modifies this
      ensures Valid()
      ensures old(GetRequestById(requestId)).None? ==>
                r == None && requests == old(requests) && friendships == old(friendships)
      ensures old(GetRequestById(requestId)).Some? ==>
                var q := old(GetRequestById(requestId)).value;
                var updated := SetStatus(old(requests), q.id, status);
                && r == Some(updated.1)
                && requests == updated.0
                && friendships == old(friendships) + (if status == "accepted" then [Friendship(q.senderId, q.recipientId, now)] else [])
    {
      var request := GetRequestById(requestId);
      if request.None? {
        return None;  // a valid id that matches no request: 404
      }
      if status == "accepted" {
        friendships := friendships + [Friendship(request.value.senderId, request.value.recipientId, now)];
      }
      var updated := SetStatus(requests, request.value.id, status);
      SetStatusKeepsIds(requests, request.value.id, status);
      requests := updated.0;
      r := Some(updated.1);
    }

    /** get_friend_list: exactly the friendships the user is part of. */
    function GetFriendList(userId: UserId): (r: seq<Friendship>)
      reads this
      ensures forall f :: f in r <==> f in friendships && (f.user1 == userId || f.user2 == userId)
    {
      FriendsOf(friendships, userId)
    }
  }

  /** A status update keeps every request's id, so ids stay well formed. */
  lemma SetStatusKeepsIds(rs: seq<FriendRequest>, id: string, status: string)
    requires IdsWellFormed(rs)
    ensures IdsWellFormed(SetStatus(rs, id, status).0)
  {
    var rs' := SetStatus(rs, id, status).0;
    assert forall j :: 0 <= j < |rs| ==> rs'[j].id == rs[j].(status := rs'[j].status).id;
  }

  /** Once a request from s to t is stored, sending it again is a duplicate. */
  lemma SentRequestIsDuplicate(rs: seq<FriendRequest>, q: FriendRequest)
    ensures FindRequest(rs + [q], q.senderId, q.recipientId).Some?
  {
    if FindRequest(rs, q.senderId, q.recipientId).None? {
      assert (rs + [q])[|rs|] == q;
    } else {
      var k := FindRequest(rs, q.senderId, q.recipientId).value;
      assert (rs + [q])[k] == rs[k];
    }
  }

  /** The duplicate check is direction-sensitive: a request from s to t does not block one from t to s. */
  lemma {:induction false} ReverseIsNotDuplicate(rs: seq<FriendRequest>, q: FriendRequest)
    requires q.senderId != q.recipientId
    ensures FindRequest(rs + [q], q.recipientId, q.senderId) == FindRequest(rs, q.recipientId, q.senderId)
  {
    if rs != [] {
      assert (rs + [q])[1..] == rs[1..] + [q];
      ReverseIsNotDuplicate(rs[1..], q);
    }
  }

  /** A request inserted with a fresh id is found again by that id. */
  lemma SentRequestIsFound(rs: seq<FriendRequest>, q: FriendRequest)
    requires forall j :: 0 <= j < |rs| ==> rs[j].id != q.id
    ensures IndexOfId(rs + [q], q.id) == Some(|rs|)
  {
    var all := rs + [q];
    assert all[|rs|] == q;
    assert forall j :: 0 <= j < |rs| ==> all[j] == rs[j];
  }

  /** After an update the request carries the new status and every other request is as it was. */
  lemma UpdatedRequestHasStatus(rs: seq<FriendRequest>, i: nat, status: string)
    requires IdsWellFormed(rs) && i < |rs|
    ensures var rs' := SetStatus(rs, rs[i].id, status).0;
            && rs'[i] == rs[i].(status := status)
            && forall j :: 0 <= j < |rs| && j != i ==> rs'[j] == rs[j]
  {
    assert IndexOfId(rs, rs[i].id) == Some(i);
  }

  /** Setting the same status twice modifies nothing the second time. */
  lemma SetStatusIdempotent(rs: seq<FriendRequest>, id: string, status: string)
    ensures var once := SetStatus(rs, id, status).0;
            SetStatus(once, id, status) == (once, 0)
  {
    var once := SetStatus(rs, id, status).0;
    assert forall j :: 0 <= j < |rs| ==> once[j].id == rs[j].id;
    IndexOfIdStatusBlind(rs, once, id);
    match IndexOfId(rs, id)
    case None =>
    case Some(i) =>
      assert once[i].status == status;
      assert once[i := once[i].(status := status)] == once;
  }

  /** Finding by id does not depend on statuses. */
  lemma {:induction false} IndexOfIdStatusBlind(rs: seq<FriendRequest>, rs': seq<FriendRequest>, id: string)
    requires |rs'| == |rs| && forall j :: 0 <= j < |rs| ==> rs'[j].id == rs[j].id
    ensures IndexOfId(rs', id) == IndexOfId(rs, id)
  {
    if rs != [] {
      IndexOfIdStatusBlind(rs[1..], rs'[1..], id);
    }
  }

  /** An accepted request makes each of the two users appear in the other's friend list. */
  lemma AcceptedPairAreFriends(fs: seq<Friendship>, s: UserId, t: UserId, now: string)
    ensures Friendship(s, t, now) in FriendsOf(fs + [Friendship(s, t, now)], s)
    ensures Friendship(s, t, now) in FriendsOf(fs + [Friendship(s, t, now)], t)
  {
    assert (fs + [Friendship(s, t, now)])[|fs|] == Friendship(s, t, now);
  }

  // -------------------------------------------------------------------------
  // update_friend_request_status as written
  // -------------------------------------------------------------------------

  /**
   * update_friend_request_status as written: get_request_by_id is called
   * without await, so `request` is a coroutine, which is truthy and never
   * None. Accepting then subscripts it (TypeError) after binding the
   * friendships collection; any other status reaches the update with
   * `collection` never bound (UnboundLocalError, a NameError). Both happen
   * before any write, so the collections are untouched; even past them,
   * `update` is not the name the update result was bound to.
   */
  function UpdateStatusAsWritten(requests: seq<FriendRequest>, requestId: string, status: string): (r: Result<nat, PyError>)
    ensures r.Err?
    ensures status == "accepted" ==> r == Err(TypeError)
    ensures status != "accepted" ==> r == Err(NameError)
  {
    if status == "accepted" then Err(TypeError) else Err(NameError)
  }

  /**
   * As written, even a well-formed id of an existing request is never
   * updated, where the intended method sets its status.
   */
  lemma AsWrittenNeverUpdates(svc: FriendServices, requestId: string, status: string)
    requires IsValidObjectId(requestId)
    requires exists j :: 0 <= j < |svc.requests| && svc.requests[j].id == Canonical(requestId)
    ensures svc.GetRequestById(requestId).Some?
    ensures UpdateStatusAsWritten(svc.requests, requestId, status).Err?
  {
  }
}
