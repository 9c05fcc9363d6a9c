/**
 * The project services (backend/app/services/project_services.py): the
 * query builder of search_projects, and the way update_project and
 * delete_project turn the database's counts into their results.
 *
 * The class defines search_projects twice; the second definition
 * (lines 228-287) rebinds the name, so it is the one modelled here.
 *
 * projects_collection (line 43) is a coroutine function, and every caller
 * reads the collection method straight off `self.projects_collection()`
 * without awaiting it. The coroutine object has no such method, so as
 * written each of these calls raises AttributeError before the database is
 * reached. The main model follows the awaited collection; the as-written
 * calls are modelled at the end of this module.
 */
module ProjectServices {
  import opened Wrappers
  import opened PyValues

  /** The filter keys search_projects turns into a condition; every other key is ignored. */
  predicate Recognised(key: string) {
    key in {"title", "created_by", "deadline", "ending", "created_at", "starting", "type",
            "tags", "collaborators", "location", "project_tools", "tools", "skills"}
  }

  /**
   * The condition one filter item becomes: a case-insensitive regex for
   * title and location, an upper bound for deadline and ending, a lower
   * bound for created_at and starting, the value itself for created_by and
   * type, and `$in` (a string split on ", ") for the list-valued keys.
   */
  function ProjectCond(key: string, v: Value): (c: Option<Cond>)
    ensures c.Some? <==> Recognised(key)
    ensures (key == "title" || key == "location") ==> c == Some(Regex(v, "i"))
    ensures (key == "deadline" || key == "ending") ==> c == Some(Lte(v))
    ensures (key == "created_at" || key == "starting") ==> c == Some(Gte(v))
    ensures (key == "created_by" || key == "type") ==> c == Some(Equals(v))
    ensures key in {"tags", "collaborators", "project_tools", "tools", "skills"} ==> c == Some(InCond(v))
  {
    if key == "title" || key == "location" then Some(Regex(v, "i"))
    else if key == "deadline" || key == "ending" then Some(Lte(v))
    else if key == "created_at" || key == "starting" then Some(Gte(v))
    else if key == "created_by" || key == "type" then Some(Equals(v))
    else if key in {"tags", "collaborators", "project_tools", "tools", "skills"} then Some(InCond(v))
    else None
  }

  /**
   * search_projects: one pass over the filter items, setting the query
   * entry of each recognised key. Running the query and validating the
   * projects it finds are not part of this model.
   */
  method SearchProjects(filters: Dict<Value>) returns (query: Dict<Cond>)
    ensures query == BuildDict(filters, ProjectCond)
  {
    query := [];
    var i := 0;
    while i < |filters|
      invariant 0 <= i <= |filters|
      invariant query == BuildDict(filters[..i], ProjectCond)
    {
      var (key, value) := filters[i];
      BuildDictStep(filters, ProjectCond, i);
      // The source tests each key with a separate `if`; the keys are
      // distinct, so at most one branch runs and a chain is equivalent.
      if key == "title" {
        query := Put(query, key, Regex(value, "i"));
      } else if key == "created_by" {
        query := Put(query, key, Equals(value));
      } else if key == "deadline" {
        query := Put(query, key, Lte(value));
      } else if key == "ending" {
        query := Put(query, key, Lte(value));
      } else if key == "created_at" {
        query := Put(query, key, Gte(value));
      } else if key == "starting" {
        query := Put(query, key, Gte(value));
      } else if key == "type" {
        query := Put(query, key, Equals(value));
      } else if key == "tags" {
        query := Put(query, key, InCond(value));
      } else if key == "collaborators" {
        query := Put(query, key, InCond(value));
      } else if key == "location" {
        query := Put(query, key, Regex(value, "i"));
      } else if key == "project_tools" || key == "tools" || key == "skills" {
        query := Put(query, key, InCond(value));
      }
      i := i + 1;
    }
    assert filters[..i] == filters;
  }

  /** The query has an entry exactly for the recognised keys of the filters. */
  lemma {:induction false} ProjectQueryKeys(filters: Dict<Value>, k: string)
    ensures HasKey(BuildDict(filters, ProjectCond), k) <==> HasKey(filters, k) && Recognised(k)
    decreases |filters|
  {
    if filters != [] {
      var init := filters[..|filters| - 1];
      var last := filters[|filters| - 1];
      ProjectQueryKeys(init, k);
      KeysSnoc(init, last);
      assert filters == init + [last];
      var q := BuildDict(init, ProjectCond);
      assert HasKey(BuildDict(filters, ProjectCond), k) <==> Get(BuildDict(filters, ProjectCond), k).Some?;
      assert HasKey(q, k) <==> Get(q, k).Some?;
    }
  }

  /** A keyword search on several list-valued keys keeps them apart: tools and skills each get their own `$in`. */
  lemma ToolKeysStaySeparate(tools: string, skills: string)
    ensures var q := BuildDict([("tools", Str(tools)), ("skills", Str(skills))], ProjectCond);
            Get(q, "tools") == Some(In(StrList(Split(tools)))) && Get(q, "skills") == Some(In(StrList(Split(skills))))
  {
    var f := [("tools", Str(tools)), ("skills", Str(skills))];
    assert "tools" != "skills";
    assert DistinctKeys(f);
    assert Get(f, "tools") == Some(Str(tools)) && Get(f, "skills") == Some(Str(skills));
    BuildDictEntry(f, ProjectCond, "tools");
    BuildDictEntry(f, ProjectCond, "skills");
  }

  // -------------------------------------------------------------------------
  // update_project and delete_project
  // -------------------------------------------------------------------------

  /** delete_project's result: the count when exactly one project was deleted, None otherwise. */
  function DeleteResult(deleted: nat): (r: Option<nat>)
    ensures r.Some? <==> deleted == 1
    ensures r.Some? ==> r.value == 1
  {
    if deleted == 1 then Some(deleted) else None
  }

  /**
   * update_project: the update's `updated_at` is set to now (in its own
   * place if the update has the field, last otherwise), all its fields go
   * into `$set`, and the counts the database reports become the result.
   */
  method UpdateProject(project: Dict<Value>, now: string, matched: nat, modified: nat) returns (setDoc: Dict<Value>, r: Option<nat>)
    ensures Get(setDoc, "updated_at") == Some(Str(now))
    ensures forall k :: k != "updated_at" ==> Get(setDoc, k) == Get(project, k)
    ensures HasKey(project, "updated_at") ==> Keys(setDoc) == Keys(project)
    ensures r.None? <==> matched == 0
    ensures r.Some? ==> r.value == modified
  {
    setDoc := Put(project, "updated_at", Str(now));
    r := UpdateResult(matched, modified);
  }

  // -------------------------------------------------------------------------
  // As written: the collection is never awaited
  // -------------------------------------------------------------------------

  /** update_project as written: `.update_one` is read off the coroutine, so nothing is updated and no count comes back. */
  function UpdateProjectAsWritten(project: Dict<Value>, now: string): (r: Result<Option<nat>, PyError>)
    ensures r.Err? && r.error == AttributeError("update_one")
  {
    Err(AttributeError("update_one"))
  }

  /** delete_project as written: `.delete_one` is read off the coroutine, so nothing is deleted. */
  function DeleteProjectAsWritten(projectId: string): (r: Result<Option<nat>, PyError>)
    ensures r.Err? && r.error == AttributeError("delete_one")
  {
    Err(AttributeError("delete_one"))
  }

  /** search_projects as written: the query is built, then `.find` is read off the coroutine and the query never runs. */
  function SearchProjectsAsWritten(filters: Dict<Value>): (r: Result<Dict<Cond>, PyError>)
    ensures r.Err? && r.error == AttributeError("find")
  {
    var query := BuildDict(filters, ProjectCond);
    Err(AttributeError("find"))
  }

  /** As written, an update that matches a project still reports nothing, where the awaited call gives the modified count. */
  lemma AsWrittenUpdateNeverReports(project: Dict<Value>, now: string, matched: nat, modified: nat)
    requires matched > 0
    ensures UpdateProjectAsWritten(project, now).Err?
    ensures UpdateResult(matched, modified) == Some(modified)
  {
  }

  /** As written, deleting an existing project reports nothing, where the awaited call gives Some(1). */
  lemma AsWrittenDeleteNeverReports(projectId: string)
    ensures DeleteProjectAsWritten(projectId).Err?
    ensures DeleteResult(1) == Some(1)
  {
  }

  /** As written, even a filter the query understands never reaches the database, where the awaited call runs its query. */
  lemma AsWrittenSearchNeverRuns(title: string)
    ensures SearchProjectsAsWritten([("title", Str(title))]).Err?
    ensures HasKey(BuildDict([("title", Str(title))], ProjectCond), "title")
  {
    ProjectQueryKeys([("title", Str(title))], "title");
    assert HasKey([("title", Str(title))], "title");
  }
}
