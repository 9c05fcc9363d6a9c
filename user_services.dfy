/**
 * The user services (backend/app/services/user_services.py): the query
 * builder and result clean-up of search_users, the field partition and
 * result of update_user, and the `_id` renaming of get_user_by_id.
 *
 * A user document is a dict of Values; running queries and validating
 * documents into UserResponse are not part of this model.
 */
module UserServices {
  import opened Wrappers
  import opened PyValues

  type Doc = Dict<Value>

  /** The keys search_users matches by case-insensitive regex, and only when their value is truthy. */
  predicate IsRegexKey(key: string) {
    key in {"name", "location", "language", "timezone"}
  }

  /** The keys search_users matches with `$in`. */
  predicate IsListKey(key: string) {
    key in {"skills", "interests"}
  }

  /**
   * The condition one filter item becomes: a case-insensitive regex for a
   * truthy name, location, language or timezone (a falsy one adds nothing),
   * `$in` for skills and interests (a string split on ", ", a list as it
   * is), and nothing for any other key.
   */
  function UserCond(key: string, v: Value): (c: Option<Cond>)
    ensures c.Some? <==> (IsRegexKey(key) && Truthy(v)) || IsListKey(key)
    ensures IsRegexKey(key) && Truthy(v) ==> c == Some(Regex(v, "i"))
    ensures IsListKey(key) ==> c == Some(InCond(v))
  {
    if IsRegexKey(key) then (if Truthy(v) then Some(Regex(v, "i")) else None)
    else if IsListKey(key) then Some(InCond(v))
    else None
  }

  /**
   * search_users, up to the query: an empty filter dict returns [] without
   * any query (None here); otherwise one pass over the items sets the
   * query entry of each key that yields a condition.
   */
  method SearchUsers(filters: Dict<Value>) returns (query: Option<Dict<Cond>>)
    ensures filters == [] ==> query == None
    ensures filters != [] ==> query == Some(BuildDict(filters, UserCond))
  {
    if filters == [] {
      return None;
    }
    var q: Dict<Cond> := [];
    var i := 0;
    while i < |filters|
      invariant 0 <= i <= |filters|
      invariant q == BuildDict(filters[..i], UserCond)
    {
      var (key, value) := filters[i];
      BuildDictStep(filters, UserCond, i);
      if key == "name" {
        if Truthy(value) {
          q := Put(q, key, Regex(value, "i"));
        }
      }
      if key == "skills" {
        q := Put(q, key, InCond(value));
      }
      if key == "interests" {
        q := Put(q, key, InCond(value));
      }
      if key == "location" {
        if Truthy(value) {
          q := Put(q, key, Regex(value, "i"));
        }
      }
      if key == "language" {
        if Truthy(value) {
          q := Put(q, key, Regex(value, "i"));
        }
      }
      if key == "timezone" {
        if Truthy(value) {
          q := Put(q, key, Regex(value, "i"));
        }
      }
      i := i + 1;
    }
    assert filters[..i] == filters;
    query := Some(q);
  }

  /** A falsy regex filter puts nothing in the query, and a truthy one its regex. */
  lemma FalsyRegexFiltersAreDropped(filters: Dict<Value>, key: string, v: Value)
    requires DistinctKeys(filters) && (key, v) in filters && IsRegexKey(key)
    ensures !Truthy(v) ==> !HasKey(BuildDict(filters, UserCond), key)
    ensures Truthy(v) ==> Get(BuildDict(filters, UserCond), key) == Some(Regex(v, "i"))
  {
    var j :| 0 <= j < |filters| && filters[j] == (key, v);
    assert Get(filters, key) == Some(v) by {
      ItemIsGot(filters, j);
    }
    BuildDictEntry(filters, UserCond, key);
  }

  /**
   * `user["user_id"] = user.pop("_id")`: the id moves to a `user_id`
   * entry (last, unless the dict has one already); KeyError when there is
   * no `_id`.
   */
  function RenameId(d: Doc): (r: Result<Doc, PyError>)
    ensures r.Err? <==> !HasKey(d, "_id")
    ensures r.Err? ==> r.error == KeyError("_id")
    ensures r.Ok? ==> !HasKey(r.value, "_id") && Get(r.value, "user_id") == Get(d, "_id")
    ensures r.Ok? ==> forall k :: k != "_id" && k != "user_id" ==> Get(r.value, k) == Get(d, k)
  {
    match Get(d, "_id")
    case None => Err(KeyError("_id"))
    case Some(id) =>
      var renamed := Put(Remove(d, "_id"), "user_id", id);
      assert Get(renamed, "_id") == Get(Remove(d, "_id"), "_id") == None;
      Ok(renamed)
  }

  /**
   * The clean-up search_users applies to a found user: `password` is popped
   * (KeyError when absent, before the id is looked at), then the id renamed.
   */
  function StripUser(d: Doc): (r: Result<Doc, PyError>)
    ensures r.Ok? <==> HasKey(d, "password") && HasKey(d, "_id")
    ensures !HasKey(d, "password") ==> r == Err(KeyError("password"))
    ensures HasKey(d, "password") && !HasKey(d, "_id") ==> r == Err(KeyError("_id"))
    ensures r.Ok? ==> && !HasKey(r.value, "password") && !HasKey(r.value, "_id")
                      && Get(r.value, "user_id") == Get(d, "_id")
                      && forall k :: k !in {"password", "_id", "user_id"} ==> Get(r.value, k) == Get(d, k)
  {
    if !HasKey(d, "password") then Err(KeyError("password"))
    else
      var r := RenameId(Remove(d, "password"));
      assert r.Ok? ==> Get(r.value, "password") == Get(Remove(d, "password"), "password") == None;
      r
  }

  /**
   * The loop over the found users in search_users: each is cleaned up in
   * turn; the first user that cannot be raises, and the search with it.
   */
  method StripUsers(users: seq<Doc>) returns (r: Result<seq<Doc>, PyError>)
    ensures r.Ok? <==> forall j :: 0 <= j < |users| ==> StripUser(users[j]).Ok?
    ensures r.Ok? ==> |r.value| == |users| && forall j :: 0 <= j < |users| ==> StripUser(users[j]) == Ok(r.value[j])
    ensures r.Err? ==> exists j :: 0 <= j < |users| && StripUser(users[j]) == Err(r.error) &&
                                  forall i :: 0 <= i < j ==> StripUser(users[i]).Ok?
  {
    ghost var results := seq(|users|, j requires 0 <= j < |users| => StripUser(users[j]));
    assert forall j :: 0 <= j < |users| ==> results[j] == StripUser(users[j]);
    var out: seq<Doc> := [];
    var i := 0;
    while i < |users|
      invariant 0 <= i <= |users| && |out| == i
      invariant forall j :: 0 <= j < i ==> results[j] == Ok(out[j])
    {
      var stripped := StripUser(users[i]);
      assert stripped == results[i];
      if stripped.Err? {
        assert forall j :: 0 <= j < i ==> results[j].Ok?;
        return Err(stripped.error);
      }
      ghost var prev := out;
      out := out + [stripped.value];
      forall j | 0 <= j <= i
        ensures results[j] == Ok(out[j])
      {
        if j < i {
          assert out[j] == prev[j];
        }
      }
      i := i + 1;
    }
    r := Ok(out);
  }

  /** The first user whose `_id` is id, if any. */
  function FindById(users: seq<Doc>, id: string): (r: Option<nat>)
    ensures r.Some? ==> r.value < |users| && Get(users[r.value], "_id") == Some(Str(id))
    ensures r.None? <==> forall j :: 0 <= j < |users| ==> Get(users[j], "_id") != Some(Str(id))
  {
    if users == [] then None
    else if Get(users[0], "_id") == Some(Str(id)) then Some(0)
    else match FindById(users[1..], id)
      case None =>
        assert forall j :: 1 <= j < |users| ==> users[j] == users[1..][j - 1];
        None
      case Some(k) => Some(k + 1)
  }

  /**
   * get_user_by_id: the user with that `_id`, read without its password,
   * with the id renamed to `user_id`; None when no user has the id.
   */
  function GetUserById(users: seq<Doc>, userId: string): (r: Option<Doc>)
    ensures r.None? <==> forall j :: 0 <= j < |users| ==> Get(users[j], "_id") != Some(Str(userId))
    ensures r.Some? ==> && Get(r.value, "user_id") == Some(Str(userId))
                        && !HasKey(r.value, "password") && !HasKey(r.value, "_id")
    ensures r.Some? ==> exists j :: 0 <= j < |users| && Get(users[j], "_id") == Some(Str(userId)) &&
                                   forall k :: k !in {"password", "_id", "user_id"} ==> Get(r.value, k) == Get(users[j], k)
  {
    match FindById(users, userId)
    case None => None
    case Some(j) =>
      // find_one(..., {"password": 0}) leaves the password out of the result
      var projected := Remove(users[j], "password");
      assert Get(projected, "_id") == Some(Str(userId));
      match RenameId(projected)
      case Ok(renamed) =>
        assert Get(renamed, "password") == Get(projected, "password") == None;
        assert Get(renamed, "_id") == None;
        Some(renamed)
      case Err(_) => assert false; None
  }

  // -------------------------------------------------------------------------
  // update_user
  // -------------------------------------------------------------------------

  /** The items update_user sends with `$addToSet`: those whose value is a list. */
  function ListField(key: string, v: Value): (r: Option<Value>)
    ensures r.Some? <==> v.StrList?
    ensures r.Some? ==> r.value == v
  {
    if v.StrList? then Some(v) else None
  }

  /** The items update_user sends with `$set`: every other one. */
  function OtherField(key: string, v: Value): (r: Option<Value>)
    ensures r.Some? <==> !v.StrList?
    ensures r.Some? ==> r.value == v
  {
    if v.StrList? then None else Some(v)
  }

  /**
   * The partition of update_user's set fields by the type of their value,
   * as the comments next to it describe: list values for `$addToSet`,
   * all others for `$set`.
   */
  method PartitionFields(updateData: Dict<Value>) returns (listFields: Dict<Value>, otherFields: Dict<Value>)
    ensures listFields == BuildDict(updateData, ListField)
    ensures otherFields == BuildDict(updateData, OtherField)
  {
    listFields, otherFields := [], [];
    var i := 0;
    while i < |updateData|
      invariant 0 <= i <= |updateData|
      invariant listFields == BuildDict(updateData[..i], ListField)
      invariant otherFields == BuildDict(updateData[..i], OtherField)
    {
      var (key, value) := updateData[i];
      BuildDictStep(updateData, ListField, i);
      BuildDictStep(updateData, OtherField, i);
      if value.StrList? {
        listFields := Put(listFields, key, value);
      } else {
        otherFields := Put(otherFields, key, value);
      }
      i := i + 1;
    }
    assert updateData[..i] == updateData;
  }

  /** Every set field goes to exactly one side of the partition, with its value. */
  lemma PartitionIsExact(updateData: Dict<Value>, k: string)
    requires DistinctKeys(updateData)
    ensures var lists, others := BuildDict(updateData, ListField), BuildDict(updateData, OtherField);
            && (Get(updateData, k).Some? && Get(updateData, k).value.StrList? ==> Get(lists, k) == Get(updateData, k) && Get(others, k).None?)
            && (Get(updateData, k).Some? && !Get(updateData, k).value.StrList? ==> Get(others, k) == Get(updateData, k) && Get(lists, k).None?)
            && (Get(updateData, k).None? ==> Get(lists, k).None? && Get(others, k).None?)
  {
    BuildDictEntry(updateData, ListField, k);
    BuildDictEntry(updateData, OtherField, k);
  }

  /**
   * update_user: the explicitly set fields of the update (model_dump with
   * exclude_unset) are partitioned into `$addToSet` and `$set`, and the
   * counts of the update_one become the result.
   */
  method UpdateUser(updateData: Dict<Value>, matched: nat, modified: nat) returns (addToSet: Dict<Value>, setDoc: Dict<Value>, r: Option<nat>)
    ensures addToSet == BuildDict(updateData, ListField)
    ensures setDoc == BuildDict(updateData, OtherField)
    ensures r.None? <==> matched == 0
    ensures r.Some? ==> r.value == modified
  {
    addToSet, setDoc := PartitionFields(updateData);
    r := UpdateResult(matched, modified);
  }

  /** The partition as written: `isinstance(key, list)` on a str key is always false. */
  function AnyField(key: string, v: Value): (r: Option<Value>)
    ensures r == Some(v)
  {
    Some(v)
  }

  /**
   * The partition loop as written: it tests the type of the key, which is
   * always a str, so no field goes to `$addToSet`.
   */
  method PartitionFieldsAsWritten(updateData: Dict<Value>) returns (listFields: Dict<Value>, otherFields: Dict<Value>)
    ensures listFields == []
    ensures otherFields == BuildDict(updateData, AnyField)
  {
    listFields, otherFields := [], [];
    var i := 0;
    while i < |updateData|
      invariant 0 <= i <= |updateData|
      invariant listFields == []
      invariant otherFields == BuildDict(updateData[..i], AnyField)
    {
      var (key, value) := updateData[i];
      BuildDictStep(updateData, AnyField, i);
      var keyIsList := false;  // a dict key of the dump is a str, never a list
      if keyIsList {
        listFields := Put(listFields, key, value);
      } else {
        otherFields := Put(otherFields, key, value);
      }
      i := i + 1;
    }
    assert updateData[..i] == updateData;
  }

  /** As written, `$set` receives the whole update, list fields included. */
  lemma {:induction false} AsWrittenSetsEverything(updateData: Dict<Value>)
    requires DistinctKeys(updateData)
    ensures BuildDict(updateData, AnyField) == updateData
    decreases |updateData|
  {
    if updateData != [] {
      var init := updateData[..|updateData| - 1];
      assert DistinctKeys(init);
      AsWrittenSetsEverything(init);
      DistinctKeysLast(updateData);
      assert updateData == init + [updateData[|updateData| - 1]];
    }
  }

  /**
   * The discrepancy on one list field: as written `{"skills": [...]}`
   * replaces the user's skills through `$set`, where the partition by
   * value sends it to `$addToSet`.
   */
  lemma ListFieldGoesToSetAsWritten(skills: seq<string>)
    ensures BuildDict([("skills", StrList(skills))], AnyField) == [("skills", StrList(skills))]
    ensures BuildDict([("skills", StrList(skills))], ListField) == [("skills", StrList(skills))]
    ensures BuildDict([("skills", StrList(skills))], OtherField) == []
  {
    var d := [("skills", StrList(skills))];
    assert d[..0] == [];
  }
}
