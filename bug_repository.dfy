/**
 * The JPQL queries of the bug repository as functions of the bug table.
 * Paging and result order are not modelled: each query yields the set of
 * matching bug ids, and a GROUP BY yields a map from status to count.
 */
module BugRepository {

  import opened Base
  import opened Text
  import opened Entities

  /** `findActiveByProjectAndSeverity`: project and severity match and the status is not excluded. */
  function FindActiveByProjectAndSeverity(bugs: map<Id, Bug>, projectId: Id, severity: BugSeverity, excluded: set<BugStatus>): (r: set<Id>)
    ensures r <= bugs.Keys
    ensures forall id :: id in r <==>
      id in bugs && bugs[id].projectId == projectId && bugs[id].severity == severity && bugs[id].status !in excluded
  {
    set id | id in bugs && bugs[id].projectId == projectId && bugs[id].severity == severity && bugs[id].status !in excluded
  }

  /** The rows of the bug table that satisfy a WHERE clause on the project id. */
  function InProjects(bugs: map<Id, Bug>, projectIds: set<Id>): (rows: map<Id, Bug>)
    ensures rows.Keys <= bugs.Keys
    ensures forall id :: id in rows <==> id in bugs && bugs[id].projectId in projectIds
    ensures forall id :: id in rows ==> rows[id] == bugs[id]
  {
    map id | id in bugs && bugs[id].projectId in projectIds :: bugs[id]
  }

  /** The rows with a given status. */
  function WithStatus(rows: map<Id, Bug>, s: BugStatus): set<Id> {
    set id | id in rows && rows[id].status == s
  }

  /**
   * `SELECT b.status, COUNT(b) ... GROUP BY b.status`: one entry per status
   * that occurs among the rows, holding a positive count of its rows.
   */
  function GroupByStatus(rows: map<Id, Bug>): (stats: map<BugStatus, nat>)
    ensures forall s :: s in stats <==> exists id :: id in rows && rows[id].status == s
    ensures forall s :: s in stats ==> stats[s] == |WithStatus(rows, s)| && stats[s] > 0
  {
    var present := set id | id in rows :: rows[id].status;
    var stats := map s | s in present :: |WithStatus(rows, s)|;
    assert forall s :: s in stats ==> stats[s] > 0 by {
      forall s | s in stats ensures stats[s] > 0 {
        var id :| id in rows && rows[id].status == s;
        assert id in WithStatus(rows, s);
      }
    }
    stats
  }

  /** `getBugStatisticsByProject`: the status counts of one project's bugs. */
  function GetBugStatisticsByProject(bugs: map<Id, Bug>, projectId: Id): (r: map<BugStatus, nat>)
    ensures forall s :: s in r <==> exists id :: id in bugs && bugs[id].projectId == projectId && bugs[id].status == s
    ensures forall s :: s in r ==> r[s] == |set id | id in bugs && bugs[id].projectId == projectId && bugs[id].status == s|
  {
    var rows := InProjects(bugs, {projectId});
    assert forall s :: WithStatus(rows, s) == set id | id in bugs && bugs[id].projectId == projectId && bugs[id].status == s;
    GroupByStatus(rows)
  }

  /** `findBugStatistics`: the grouping over the whole table. */
  function FindBugStatistics(bugs: map<Id, Bug>): (r: map<BugStatus, nat>)
    ensures forall s :: s in r <==> exists id :: id in bugs && bugs[id].status == s
    ensures forall s :: s in r ==> r[s] == |set id | id in bugs && bugs[id].status == s|
  {
    GroupByStatus(bugs)
  }

  /** `findBugStatisticsByProjectIdIn`: the status counts of the bugs of the listed projects. */
  function FindBugStatisticsByProjectIdIn(bugs: map<Id, Bug>, projectIds: set<Id>): (r: map<BugStatus, nat>)
    ensures forall s :: s in r <==> exists id :: id in bugs && bugs[id].projectId in projectIds && bugs[id].status == s
    ensures forall s :: s in r ==> r[s] == |set id | id in bugs && bugs[id].projectId in projectIds && bugs[id].status == s|
  {
    var rows := InProjects(bugs, projectIds);
    assert forall s :: WithStatus(rows, s) == set id | id in bugs && bugs[id].projectId in projectIds && bugs[id].status == s;
    GroupByStatus(rows)
  }

  /** The count a statistics map gives a status, zero when the status is absent. */
  function CountOf(stats: map<BugStatus, nat>, s: BugStatus): nat {
    if s in stats then stats[s] else 0
  }

  /** The sum of the counts of the given statuses. */
  function Total(stats: map<BugStatus, nat>, ss: seq<BugStatus>): nat {
    if ss == [] then 0 else Total(stats, ss[..|ss| - 1]) + CountOf(stats, ss[|ss| - 1])
  }

  /** The rows whose status is one of `ss`. */
  function WithStatusIn(rows: map<Id, Bug>, ss: seq<BugStatus>): set<Id> {
    set id | id in rows && rows[id].status in ss
  }

  /** The statuses of `init + [last]` select the rows of `init` plus the rows of `last`. */
  lemma {:induction false} WithStatusInSnoc(rows: map<Id, Bug>, init: seq<BugStatus>, last: BugStatus)
    ensures WithStatusIn(rows, init + [last]) == WithStatusIn(rows, init) + WithStatus(rows, last)
  {
    forall id | id in rows ensures rows[id].status in init + [last] <==> rows[id].status in init || rows[id].status == last {
    }
  }

  /** The grouping's count for a status, present or not, is the number of its rows. */
  lemma {:induction false} CountOfGrouping(rows: map<Id, Bug>, s: BugStatus)
    ensures CountOf(GroupByStatus(rows), s) == |WithStatus(rows, s)|
  {
    if s !in GroupByStatus(rows) {
      assert WithStatus(rows, s) == {};
    }
  }

  /** Dropping the last element of a list without repetitions leaves a list without repetitions that lacks it. */
  lemma {:induction false} DistinctInit(ss: seq<BugStatus>)
    requires Distinct(ss) && ss != []
    ensures Distinct(ss[..|ss| - 1]) && ss[|ss| - 1] !in ss[..|ss| - 1]
  {
    var init := ss[..|ss| - 1];
    forall i | 0 <= i < |init| ensures init[i] == ss[i] {
    }
  }

  /** Summing the GROUP BY counts of distinct statuses counts the rows having one of them. */
  lemma {:induction false} TotalOfGrouping(rows: map<Id, Bug>, ss: seq<BugStatus>)
    requires Distinct(ss)
    ensures Total(GroupByStatus(rows), ss) == |WithStatusIn(rows, ss)|
  {
    if ss == [] {
      assert WithStatusIn(rows, ss) == {};
    } else {
      var init, last := ss[..|ss| - 1], ss[|ss| - 1];
      DistinctInit(ss);
      TotalOfGrouping(rows, init);
      assert ss == init + [last];
      WithStatusInSnoc(rows, init, last);
      CountOfGrouping(rows, last);
      assert WithStatusIn(rows, init) !! WithStatus(rows, last);
    }
  }

  /** The per-status counts of a GROUP BY add up to the number of rows grouped. */
  lemma {:induction false} GroupByStatusTotal(rows: map<Id, Bug>)
    ensures Total(GroupByStatus(rows), AllStatuses) == |rows|
  {
    TotalOfGrouping(rows, AllStatuses);
    assert WithStatusIn(rows, AllStatuses) == rows.Keys;
  }

  /** `findByProjectIdIn` joins the organisation (an inner join): only bugs of listed projects that belong to an organisation. */
  function FindByProjectIdIn(bugs: map<Id, Bug>, projects: map<Id, Project>, projectIds: set<Id>): (r: set<Id>)
    ensures forall id :: id in r <==>
      (id in bugs && bugs[id].projectId in projectIds
       && bugs[id].projectId in projects && projects[bugs[id].projectId].organizationId.Some?)
  {
    set id | id in bugs && bugs[id].projectId in projectIds
      && bugs[id].projectId in projects && projects[bugs[id].projectId].organizationId.Some?
  }

  /** `findByProjectOrganizationIdIn`: bugs whose project belongs to one of the organisations. */
  function FindByProjectOrganizationIdIn(bugs: map<Id, Bug>, projects: map<Id, Project>, organizationIds: set<Id>): (r: set<Id>)
    ensures forall id :: id in r <==>
      (id in bugs && bugs[id].projectId in projects
       && projects[bugs[id].projectId].organizationId.Some?
       && projects[bugs[id].projectId].organizationId.value in organizationIds)
  {
    set id | id in bugs && bugs[id].projectId in projects
      && projects[bugs[id].projectId].organizationId.Some?
      && projects[bugs[id].projectId].organizationId.value in organizationIds
  }

  /** `findByIdIn`. */
  function FindByIdIn(bugs: map<Id, Bug>, ids: seq<Id>): (r: set<Id>)
    ensures forall id :: id in r <==> id in bugs && id in ids
  {
    set id | id in bugs && id in ids
  }

  /** `findByProjectIdAndAssignedDeveloperId`. */
  function FindByProjectIdAndAssignedDeveloperId(bugs: map<Id, Bug>, projectId: Id, developerId: Id): (r: set<Id>)
    ensures forall id :: id in r <==> id in bugs && bugs[id].projectId == projectId && developerId in bugs[id].assignedIds
  {
    set id | id in bugs && bugs[id].projectId == projectId && developerId in bugs[id].assignedIds
  }

  /** `LOWER(x) LIKE LOWER(CONCAT('%', term, '%'))`. */
  predicate MatchesTerm(x: string, term: string) {
    Like(ToLower(x), "%" + ToLower(term) + "%")
  }

  /** `searchBugsInProject`: the project's bugs whose title or description matches the term. */
  function SearchBugsInProject(bugs: map<Id, Bug>, projectId: Id, term: string): (r: set<Id>)
    ensures forall id :: id in r <==>
      (id in bugs && bugs[id].projectId == projectId
       && (MatchesTerm(bugs[id].title, term) || MatchesTerm(bugs[id].description, term)))
  {
    set id | id in bugs && bugs[id].projectId == projectId
      && (MatchesTerm(bugs[id].title, term) || MatchesTerm(bugs[id].description, term))
  }

  /**
   * For a term without LIKE wildcards the search is case-insensitive substring
   * search on title or description; the empty term selects every bug of the project.
   */
  lemma {:induction false} SearchIsSubstringSearch(bugs: map<Id, Bug>, projectId: Id, term: string, id: Id)
    requires NoWildcards(term)
    ensures id in SearchBugsInProject(bugs, projectId, term) <==>
      (id in bugs && bugs[id].projectId == projectId
       && (Contains(ToLower(bugs[id].title), ToLower(term)) || Contains(ToLower(bugs[id].description), ToLower(term))))
    ensures term == "" ==> (id in SearchBugsInProject(bugs, projectId, term) <==> id in bugs && bugs[id].projectId == projectId)
  {
    var t := ToLower(term);
    assert NoWildcards(t);
    if id in bugs {
      LikeContains(ToLower(bugs[id].title), t);
      LikeContains(ToLower(bugs[id].description), t);
      if term == "" {
        assert OccursAt(ToLower(bugs[id].title), t, 0);
      }
    }
  }

  /** The two scoped listings differ: a project filter ignores organisations, an organisation filter ignores project ids. */
  lemma {:induction false} ProjectAndOrganizationFiltersDiffer(bugs: map<Id, Bug>, projects: map<Id, Project>, id: Id)
    requires id in bugs && bugs[id].projectId in projects && projects[bugs[id].projectId].organizationId.Some?
    ensures id in FindByProjectIdIn(bugs, projects, {bugs[id].projectId})
    ensures id in FindByProjectOrganizationIdIn(bugs, projects, {projects[bugs[id].projectId].organizationId.value})
    ensures bugs[id].projectId != projects[bugs[id].projectId].organizationId.value ==>
      id !in FindByProjectIdIn(bugs, projects, {projects[bugs[id].projectId].organizationId.value})
  {
  }
}
