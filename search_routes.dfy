/**
 * The search endpoints (backend/app/routes/search_routes.py): each checks
 * the access token, gathers its query parameters into a dict, keeps only
 * the truthy ones, and hands that dict unchanged to the service's search.
 */
module SearchRoutes {
  import opened Wrappers
  import opened PyValues
  import US = UserServices
  import PS = ProjectServices

  /** An HTTPException: the status code and the detail's error and code. */
  datatype HttpError = HttpError(status: nat, error: string, code: string)

  const Unauthorized := HttpError(401, "Invalid token", "UNAUTHORIZED")

  /** What FastAPI answers for an exception the route does not handle: 500, with no error code. */
  const ServerError := HttpError(500, "Internal Server Error", "")

  /** `if not token`: a missing or empty claim set is rejected. */
  predicate Authorized(token: Option<Claims>) {
    token.Some? && token.value != map[]
  }

  /** The entry `query.update({key: param})` adds: the parameter itself, when truthy. */
  function KeepTruthy(key: string, v: Value): (r: Option<Value>)
    ensures r.Some? <==> Truthy(v)
    ensures r.Some? ==> r.value == v
  {
    if Truthy(v) then Some(v) else None
  }

  /** The truthy items of a dict, in order: the reference for the pruning loop. */
  function FilterTruthy(d: Dict<Value>): (r: Dict<Value>)
    ensures |r| <= |d|
    ensures forall kv :: kv in r <==> kv in d && Truthy(kv.1)
  {
    if d == [] then []
    else (if Truthy(d[0].1) then [d[0]] else []) + FilterTruthy(d[1..])
  }

  lemma {:induction false} FilterTruthySnoc(d: Dict<Value>, kv: (string, Value))
    ensures FilterTruthy(d + [kv]) == FilterTruthy(d) + (if Truthy(kv.1) then [kv] else [])
  {
    if d != [] {
      assert (d + [kv])[1..] == d[1..] + [kv];
      FilterTruthySnoc(d[1..], kv);
    }
  }

  /** Pruning adds no key. */
  lemma FilterKeepsKeys(d: Dict<Value>, k: string)
    ensures HasKey(FilterTruthy(d), k) ==> HasKey(d, k)
  {
    var f := FilterTruthy(d);
    HasKeyIffItem(f, k);
    HasKeyIffItem(d, k);
    if HasKey(f, k) {
      var i :| 0 <= i < |f| && f[i].0 == k;
      assert f[i] in d;
    }
  }

  /** For a dict (no key twice) the pruning loop keeps exactly the truthy items, in their order. */
  lemma {:induction false} PruneIsFilter(d: Dict<Value>)
    requires DistinctKeys(d)
    ensures BuildDict(d, KeepTruthy) == FilterTruthy(d)
    decreases |d|
  {
    if d != [] {
      var init := d[..|d| - 1];
      var last := d[|d| - 1];
      assert d == init + [last];
      assert DistinctKeys(init);
      PruneIsFilter(init);
      FilterTruthySnoc(init, last);
      if Truthy(last.1) {
        var f := FilterTruthy(init);
        forall i | 0 <= i < |f|
          ensures f[i].0 != last.0
        {
          assert f[i] in init;
          DistinctKeysLast(d);
          HasKeyIffItem(init, last.0);
        }
        MissingKey(f, last.0);
      }
    }
  }

  /**
   * The loop both endpoints run: `query.update({key: param})` for every
   * truthy parameter, in order.
   */
  method PruneParams(params: Dict<Value>) returns (query: Dict<Value>)
    ensures query == BuildDict(params, KeepTruthy)
  {
    query := [];
    var i := 0;
    while i < |params|
      invariant 0 <= i <= |params|
      invariant query == BuildDict(params[..i], KeepTruthy)
    {
      var (key, param) := params[i];
      BuildDictStep(params, KeepTruthy, i);
      if Truthy(param) {  // None, "" and [] are falsy
        query := Put(query, key, param);
      }
      i := i + 1;
    }
    assert params[..i] == params;
  }

  /** The parameters of the user search, in the order of the dict literal. */
  function UserParams(name: Value, location: Value, skills: Value, interests: Value, timezone: Value): Dict<Value> {
    [("name", name), ("skills", skills), ("interests", interests), ("location", location), ("timezone", timezone)]
  }

  /** The parameters of the project search, in the order of the dict literal. */
  function ProjectParams(title: Value, createdBy: Value, deadline: Value, ending: Value, createdAt: Value, starting: Value,
                         projectType: Value, skills: Value, tools: Value, projectTools: Value, tags: Value,
                         collaborators: Value, location: Value): Dict<Value> {
    [("title", title), ("created_at", createdAt), ("created_by", createdBy), ("starting", starting),
     ("deadline", deadline), ("ending", ending), ("type", projectType), ("tags", tags), ("collaborators", collaborators),
     ("project_tools", projectTools), ("tools", tools), ("skills", skills), ("location", location)]
  }

  /** The user search's dict literal names each parameter once. */
  lemma UserParamsAreDistinct(name: Value, location: Value, skills: Value, interests: Value, timezone: Value)
    ensures DistinctKeys(UserParams(name, location, skills, interests, timezone))
  {
  }

  /** The project search's dict literal names each parameter once. */
  lemma ProjectParamsAreDistinct(title: Value, createdBy: Value, deadline: Value, ending: Value, createdAt: Value,
                                 starting: Value, projectType: Value, skills: Value, tools: Value, projectTools: Value,
                                 tags: Value, collaborators: Value, location: Value)
    ensures DistinctKeys(ProjectParams(title, createdBy, deadline, ending, createdAt, starting, projectType, skills, tools,
                                       projectTools, tags, collaborators, location))
  {
  }

  /**
   * GET /users/: 401 UNAUTHORIZED for a token that does not verify, before
   * any query; otherwise the truthy parameters go unchanged to
   * search_users, whose query is returned with them.
   */
  method SearchUsers(token: Option<Claims>, name: Value, location: Value, skills: Value, interests: Value, timezone: Value)
    returns (r: Result<(Dict<Value>, Option<Dict<Cond>>), HttpError>)
    ensures r.Err? <==> !Authorized(token)
    ensures r.Err? ==> r.error == Unauthorized
    ensures r.Ok? ==> r.value.0 == FilterTruthy(UserParams(name, location, skills, interests, timezone))
    ensures r.Ok? ==> r.value.1 == (if r.value.0 == [] then None else Some(BuildDict(r.value.0, US.UserCond)))
  {
    if !Authorized(token) {
      return Err(Unauthorized);
    }
    var params := UserParams(name, location, skills, interests, timezone);
    var query := PruneParams(params);
    UserParamsAreDistinct(name, location, skills, interests, timezone);
    PruneIsFilter(params);
    var built := US.SearchUsers(query);
    r := Ok((query, built));
  }

  /**
   * GET /projects/: 401 UNAUTHORIZED for a token that does not verify;
   * otherwise the truthy parameters, with tools, project_tools and skills
   * as three separate keys, go unchanged to search_projects.
   */
  method SearchProjects(token: Option<Claims>, title: Value, createdBy: Value, deadline: Value, ending: Value, createdAt: Value,
                        starting: Value, projectType: Value, skills: Value, tools: Value, projectTools: Value, tags: Value,
                        collaborators: Value, location: Value)
    returns (r: Result<(Dict<Value>, Dict<Cond>), HttpError>)
    ensures r.Err? <==> !Authorized(token)
    ensures r.Err? ==> r.error == Unauthorized
    ensures r.Ok? ==> r.value.0 == FilterTruthy(ProjectParams(title, createdBy, deadline, ending, createdAt, starting,
                                                             projectType, skills, tools, projectTools, tags, collaborators, location))
    ensures r.Ok? ==> r.value.1 == BuildDict(r.value.0, PS.ProjectCond)
  {
    if !Authorized(token) {
      return Err(Unauthorized);
    }
    var params := ProjectParams(title, createdBy, deadline, ending, createdAt, starting, projectType, skills, tools,
                                projectTools, tags, collaborators, location);
    var query := PruneParams(params);
    ProjectParamsAreDistinct(title, createdBy, deadline, ending, createdAt, starting, projectType, skills, tools,
                             projectTools, tags, collaborators, location);
    PruneIsFilter(params);
    var built := PS.SearchProjects(query);
    r := Ok((query, built));
  }

  /**
   * GET /projects/ as written: after the token check and the pruning,
   * search_projects raises AttributeError on the un-awaited collection, so
   * every authorized request ends in a 500 and no project is returned.
   */
  method SearchProjectsAsWritten(token: Option<Claims>, title: Value, createdBy: Value, deadline: Value, ending: Value,
                                 createdAt: Value, starting: Value, projectType: Value, skills: Value, tools: Value,
                                 projectTools: Value, tags: Value, collaborators: Value, location: Value)
    returns (r: Result<(Dict<Value>, Dict<Cond>), HttpError>)
    ensures r.Err?
    ensures r.error == (if Authorized(token) then ServerError else Unauthorized)
  {
    if !Authorized(token) {
      return Err(Unauthorized);
    }
    var params := ProjectParams(title, createdBy, deadline, ending, createdAt, starting, projectType, skills, tools,
                                projectTools, tags, collaborators, location);
    var query := PruneParams(params);
    var found := PS.SearchProjectsAsWritten(query);
    // The AttributeError reaches FastAPI, which answers with a 500.
    assert found.Err?;
    r := Err(ServerError);
  }

  /**
   * The user search passes only the five route keys: a language filter, which
   * search_users would understand, can never come through this route.
   */
  lemma UserRouteKeys(name: Value, location: Value, skills: Value, interests: Value, timezone: Value, k: string)
    requires HasKey(FilterTruthy(UserParams(name, location, skills, interests, timezone)), k)
    ensures k in {"name", "skills", "interests", "location", "timezone"}
  {
    var p := UserParams(name, location, skills, interests, timezone);
    FilterKeepsKeys(p, k);
    HasKeyIffItem(p, k);
  }

  /** With every parameter falsy the user search gets an empty dict and runs no query. */
  lemma NoUserParamsNoQuery()
    ensures FilterTruthy(UserParams(Null, Null, StrList([]), StrList([]), Null)) == []
  {
    var p := UserParams(Null, Null, StrList([]), StrList([]), Null);
    assert forall kv :: kv in p ==> !Truthy(kv.1);
  }
}
