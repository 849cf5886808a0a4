/**
 * The project service: creating and updating projects, managing their
 * assigned users, and the per-status bug counts of the projects a user sees.
 */
module ProjectService {

  import opened Base
  import opened Entities
  import opened Db
  import opened BugRepository

  datatype ProjectRequest = ProjectRequest(
    name: string,
    description: string,
    organizationId: Id,
    projectManagerId: Id,
    assignedUserIds: Option<set<Id>>)

  datatype ProjectUpdate = ProjectUpdate(
    name: string,
    description: string,
    status: Option<ProjectStatus>,
    projectManagerId: Id,
    assignedUserIds: Option<set<Id>>)

  /** One entry of `getProjectStats`: the project's name, its organisation and a count per status name. */
  datatype ProjectStats = ProjectStats(name: string, organizationId: Id, statusCounts: map<string, int>)

  /** `findAllByIdIn`: the users among the ids. */
  function FindAllByIdIn(users: map<Id, User>, ids: set<Id>): (r: set<Id>)
    ensures r <= users.Keys && r <= ids
    ensures forall id :: id in ids && id in users ==> id in r
  {
    ids * users.Keys
  }

  /** `validateProjectManager`: only a PROJECT_MANAGER may manage a project. */
  function ValidateProjectManager(u: User): (r: Option<Error>)
    ensures r.None? <==> u.role == Some(ProjectManager)
    ensures r.Some? ==> r.value == ValidationOf("error", "Assigned user must have PROJECT_MANAGER role")
  {
    if u.role != Some(ProjectManager) then Some(ValidationOf("error", "Assigned user must have PROJECT_MANAGER role")) else None
  }

  /** The assigned users of a new project: the found users when ids are given and non-empty, else none. */
  function InitialAssignees(users: map<Id, User>, ids: Option<set<Id>>): (r: set<Id>)
    ensures r <= users.Keys
    ensures ids.None? || ids.value == {} ==> r == {}
    ensures ids.Some? ==> r <= ids.value && forall id :: id in ids.value && id in users ==> id in r
  {
    if ids.Some? && ids.value != {} then FindAllByIdIn(users, ids.value) else {}
  }

  /**
   * `createProject`: a project in the given organisation, managed by the
   * given PROJECT_MANAGER, with status ACTIVE. An unknown organisation or
   * manager, or a manager of another role, saves nothing.
   */
  method CreateProject(store: Store, request: ProjectRequest, newId: Id) returns (r: Result<Project>)
    requires store.Valid()
    requires newId !in store.projects
    modifies store`projects
    ensures store.Valid()
    ensures request.organizationId !in store.organizations ==> r == Err(NotFound(NoSuchElement, "Organization not found"))
    ensures request.organizationId in store.organizations && request.projectManagerId !in store.users ==>
      r == Err(NotFound(NoSuchElement, "Project Manager not found"))
    ensures (request.organizationId in store.organizations && request.projectManagerId in store.users
             && store.users[request.projectManagerId].role != Some(ProjectManager)) ==>
      r == Err(ValidationOf("error", "Assigned user must have PROJECT_MANAGER role"))
    ensures r.Ok? <==>
      request.organizationId in store.organizations && request.projectManagerId in store.users
      && store.users[request.projectManagerId].role == Some(ProjectManager)
    ensures r.Err? ==> store.projects == old(store.projects)
    ensures r.Ok? ==>
      store.users[request.projectManagerId].role == Some(ProjectManager)
      && r.value == Project(newId, request.name, request.description, Active, Some(request.organizationId),
                            request.projectManagerId, InitialAssignees(store.users, request.assignedUserIds))
      && store.projects == old(store.projects)[newId := r.value]
  {
    if request.organizationId !in store.organizations {
      return Err(NotFound(NoSuchElement, "Organization not found"));
    }
    if request.projectManagerId !in store.users {
      return Err(NotFound(NoSuchElement, "Project Manager not found"));
    }
    var refusal := ValidateProjectManager(store.users[request.projectManagerId]);
    if refusal.Some? {
      return Err(refusal.value);
    }
    var p := Project(newId, request.name, request.description, Active, Some(request.organizationId),
                     request.projectManagerId, InitialAssignees(store.users, request.assignedUserIds));
    store.projects := store.projects[newId := p];
    return Ok(p);
  }

  /** Changing only a project's assigned users keeps every table consistent. */
  lemma {:induction false} SaveAssigneesKeepsIntegrity(store: Store, projectId: Id, members: set<Id>)
    requires store.Valid() && projectId in store.projects && members <= store.users.Keys
    ensures ProjectsOk(store.projects[projectId := store.projects[projectId].(assignedUserIds := members)], store.users, store.organizations)
    ensures BugsOk(store.bugs, store.projects[projectId := store.projects[projectId].(assignedUserIds := members)], store.users)
  {
  }

  /** `assignUsersToProject`: the found users join the assigned set; existing members stay. */
  method AssignUsersToProject(store: Store, projectId: Id, userIds: set<Id>) returns (r: Result<Project>)
    requires store.Valid()
    modifies store`projects
    ensures store.Valid()
    ensures projectId !in store.projects <==> r == Err(NotFound(NoSuchElement, "Project not found"))
    ensures r.Ok? <==> projectId in old(store.projects)
    ensures r.Err? ==> store.projects == old(store.projects)
    ensures r.Ok? ==>
      projectId in old(store.projects)
      && r.value == old(store.projects)[projectId].(assignedUserIds := old(store.projects)[projectId].assignedUserIds + FindAllByIdIn(store.users, userIds))
      && store.projects == old(store.projects)[projectId := r.value]
  {
    if projectId !in store.projects {
      return Err(NotFound(NoSuchElement, "Project not found"));
    }
    var p := store.projects[projectId];
    var updated := p.(assignedUserIds := p.assignedUserIds + FindAllByIdIn(store.users, userIds));
    SaveAssigneesKeepsIntegrity(store, projectId, updated.assignedUserIds);
    store.projects := store.projects[projectId := updated];
    return Ok(updated);
  }

  /** `removeUsersFromProject`: exactly the users with a listed id leave; the others remain. */
  method RemoveUsersFromProject(store: Store, projectId: Id, userIds: set<Id>) returns (r: Result<Project>)
    requires store.Valid()
    modifies store`projects
    ensures store.Valid()
    ensures projectId !in store.projects <==> r == Err(NotFound(NoSuchElement, "Project not found"))
    ensures r.Ok? <==> projectId in old(store.projects)
    ensures r.Err? ==> store.projects == old(store.projects)
    ensures r.Ok? ==>
      projectId in old(store.projects)
      && r.value == old(store.projects)[projectId].(assignedUserIds := old(store.projects)[projectId].assignedUserIds - userIds)
      && store.projects == old(store.projects)[projectId := r.value]
  {
    if projectId !in store.projects {
      return Err(NotFound(NoSuchElement, "Project not found"));
    }
    var p := store.projects[projectId];
    var updated := p.(assignedUserIds := p.assignedUserIds - userIds);
    SaveAssigneesKeepsIntegrity(store, projectId, updated.assignedUserIds);
    store.projects := store.projects[projectId := updated];
    return Ok(updated);
  }

  /** Assigning users and then removing the same ids leaves exactly the members that were not listed. */
  lemma {:induction false} AssignThenRemove(members: set<Id>, users: map<Id, User>, userIds: set<Id>)
    ensures (members + FindAllByIdIn(users, userIds)) - userIds == members - userIds
  {
  }

  /**
   * The setter sequence of `updateProject` once the manager is settled:
   * name and description always, the status when one is given, the
   * assigned users (the found ones) when ids are given; nothing else changes.
   */
  function ApplyProjectUpdate(p: Project, request: ProjectUpdate, users: map<Id, User>): (r: Project)
    ensures r.name == request.name && r.description == request.description
    ensures r.status == (if request.status.Some? then request.status.value else p.status)
    ensures r.managerId == request.projectManagerId
    ensures r.assignedUserIds == (if request.assignedUserIds.Some? then FindAllByIdIn(users, request.assignedUserIds.value) else p.assignedUserIds)
    ensures r.id == p.id && r.organizationId == p.organizationId
  {
    var p1 := p.(name := request.name, description := request.description);
    var p2 := if request.status.Some? then p1.(status := request.status.value) else p1;
    var p3 := p2.(managerId := request.projectManagerId);
    if request.assignedUserIds.Some? then p3.(assignedUserIds := FindAllByIdIn(users, request.assignedUserIds.value)) else p3
  }

  /**
   * `updateProject`: the manager is looked up and checked only when the
   * requested manager differs from the current one; any failure saves nothing.
   */
  method UpdateProject(store: Store, projectId: Id, request: ProjectUpdate) returns (r: Result<Project>)
    requires store.Valid()
    modifies store`projects
    ensures store.Valid()
    ensures projectId !in store.projects ==> r == Err(NotFound(NoSuchElement, "Project not found"))
    ensures projectId in old(store.projects) ==>
      var p := old(store.projects)[projectId];
      var m := request.projectManagerId;
      (p.managerId != m && m !in store.users ==> r == Err(NotFound(NoSuchElement, "Project Manager not found")))
      && (p.managerId != m && m in store.users && store.users[m].role != Some(ProjectManager) ==>
            r == Err(ValidationOf("error", "Assigned user must have PROJECT_MANAGER role")))
      && (p.managerId == m || (m in store.users && store.users[m].role == Some(ProjectManager)) ==>
            r == Ok(ApplyProjectUpdate(p, request, store.users)))
    ensures r.Err? ==> store.projects == old(store.projects)
    ensures r.Ok? ==> store.projects == old(store.projects)[projectId := r.value]
  {
    if projectId !in store.projects {
      return Err(NotFound(NoSuchElement, "Project not found"));
    }
    var p := store.projects[projectId];
    if p.managerId != request.projectManagerId {
      if request.projectManagerId !in store.users {
        return Err(NotFound(NoSuchElement, "Project Manager not found"));
      }
      var refusal := ValidateProjectManager(store.users[request.projectManagerId]);
      if refusal.Some? {
        return Err(refusal.value);
      }
    }
    var updated := ApplyProjectUpdate(p, request, store.users);
    store.projects := store.projects[projectId := updated];
    return Ok(updated);
  }

  // ---------------------------------------------------------------------
  // getProjectStats
  // ---------------------------------------------------------------------

  /** `findByAssignedBugsDeveloperId`: projects holding a bug assigned to the user. */
  function ProjectsWithAssignedBugs(projects: map<Id, Project>, bugs: map<Id, Bug>, userId: Id): (r: set<Id>)
    ensures forall p :: p in r <==> p in projects && exists b :: b in bugs && bugs[b].projectId == p && userId in bugs[b].assignedIds
  {
    set p | p in projects && exists b :: b in bugs && bugs[b].projectId == p && userId in bugs[b].assignedIds
  }

  /** `findByOrganizationIdIn`. */
  function ProjectsInOrganizations(projects: map<Id, Project>, organizationIds: set<Id>): (r: set<Id>)
    ensures forall p :: p in r <==> p in projects && projects[p].organizationId.Some? && projects[p].organizationId.value in organizationIds
  {
    set p | p in projects && projects[p].organizationId.Some? && projects[p].organizationId.value in organizationIds
  }

  /** The projects `getProjectStats` reports on for a user. */
  function StatsScope(projects: map<Id, Project>, bugs: map<Id, Bug>, organizations: map<Id, Organization>, u: User): (r: set<Id>)
    ensures r <= projects.Keys
    ensures u.role == Some(Admin) ==> r == ProjectsInOrganizations(projects, OrganizationsOf(organizations, u.id))
    ensures u.role == Some(ProjectManager) ==> r == ManagedProjects(projects, u.id)
    ensures u.role != Some(Admin) && u.role != Some(ProjectManager) ==> r == ProjectsWithAssignedBugs(projects, bugs, u.id)
  {
    if u.role == Some(Admin) then ProjectsInOrganizations(projects, OrganizationsOf(organizations, u.id))
    else if u.role == Some(ProjectManager) then ManagedProjects(projects, u.id)
    else ProjectsWithAssignedBugs(projects, bugs, u.id)
  }

  /** The status names, as `BugStatus.name()` gives them. */
  function StatusNames(): set<string> {
    set s | s in AllStatuses :: StatusName(s)
  }

  /** Every status has its own name. */
  lemma {:induction false} StatusNameInjective(s: BugStatus, t: BugStatus)
    requires StatusName(s) == StatusName(t)
    ensures s == t
  {
  }

  /**
   * The loop over `BugStatus.values()`: every status name is present, with
   * the grouped count of that status, zero when the status did not occur.
   */
  method FillStatusCounts(grouped: map<BugStatus, nat>) returns (counts: map<string, int>)
    ensures counts.Keys == StatusNames()
    ensures forall s: BugStatus :: counts[StatusName(s)] == CountOf(grouped, s)
  {
    counts := map[];
    for i := 0 to |AllStatuses|
      invariant counts.Keys == set j | 0 <= j < i :: StatusName(AllStatuses[j])
      invariant forall j :: 0 <= j < i ==> counts[StatusName(AllStatuses[j])] == CountOf(grouped, AllStatuses[j])
    {
      var s := AllStatuses[i];
      counts := counts[StatusName(s) := if s in grouped then grouped[s] else 0];
      forall j | 0 <= j < i
        ensures StatusName(AllStatuses[j]) != StatusName(s)
      {
        if StatusName(AllStatuses[j]) == StatusName(s) {
          StatusNameInjective(AllStatuses[j], s);
        }
      }
    }
    assert forall s: BugStatus :: s == AllStatuses[IndexOfStatus(s)];
  }

  /** The position of a status in `BugStatus.values()`. */
  function IndexOfStatus(s: BugStatus): (i: nat)
    ensures i < |AllStatuses| && AllStatuses[i] == s
  {
    match s
    case New => 0
    case Assigned => 1
    case Open => 2
    case InProgress => 3
    case Resolved => 4
    case Testing => 5
    case Closed => 6
    case Reopened => 7
  }

  /** The sum of the counts of the given statuses, read by name. */
  function NamedTotal(counts: map<string, int>, ss: seq<BugStatus>): int {
    if ss == [] then 0
    else NamedTotal(counts, ss[..|ss| - 1]) + (if StatusName(ss[|ss| - 1]) in counts then counts[StatusName(ss[|ss| - 1])] else 0)
  }

  lemma {:induction false} NamedTotalOfCounts(counts: map<string, int>, grouped: map<BugStatus, nat>, ss: seq<BugStatus>)
    requires counts.Keys == StatusNames()
    requires forall s: BugStatus :: counts[StatusName(s)] == CountOf(grouped, s)
    ensures NamedTotal(counts, ss) == Total(grouped, ss)
  {
    if ss != [] {
      NamedTotalOfCounts(counts, grouped, ss[..|ss| - 1]);
      assert StatusName(ss[|ss| - 1]) in counts by {
        assert ss[|ss| - 1] == AllStatuses[IndexOfStatus(ss[|ss| - 1])];
      }
    }
  }

  /** What `getProjectStats` reports for one project. */
  predicate DescribesProject(stats: ProjectStats, p: Id, projects: map<Id, Project>, bugs: map<Id, Bug>)
    requires p in projects
  {
    projects[p].organizationId.Some?
    && stats.name == projects[p].name
    && stats.organizationId == projects[p].organizationId.value
    && stats.statusCounts.Keys == StatusNames()
    && (forall s: BugStatus :: stats.statusCounts[StatusName(s)] == |WithStatus(InProjects(bugs, {p}), s)|)
  }

  /** The counts of a project's entry add up to the number of its bugs. */
  lemma {:induction false} DescribedCountsTotal(stats: ProjectStats, p: Id, projects: map<Id, Project>, bugs: map<Id, Bug>)
    requires p in projects && DescribesProject(stats, p, projects, bugs)
    ensures NamedTotal(stats.statusCounts, AllStatuses) == |InProjects(bugs, {p})|
  {
    var rows := InProjects(bugs, {p});
    var grouped := GroupByStatus(rows);
    forall s: BugStatus
      ensures stats.statusCounts[StatusName(s)] == CountOf(grouped, s)
    {
      CountOfGrouping(rows, s);
    }
    NamedTotalOfCounts(stats.statusCounts, grouped, AllStatuses);
    GroupByStatusTotal(rows);
  }

  /** The entry of one project; a project without an organisation dereferences null. */
  method StatsOfProject(projects: map<Id, Project>, bugs: map<Id, Bug>, p: Id) returns (r: Result<ProjectStats>)
    requires p in projects
    ensures r.Err? <==> projects[p].organizationId.None?
    ensures r.Err? ==> r.error == Runtime("")
    ensures r.Ok? ==> DescribesProject(r.value, p, projects, bugs)
  {
    if projects[p].organizationId.None? {
      return Err(Runtime(""));
    }
    var rows := InProjects(bugs, {p});
    var grouped := GroupByStatus(rows);
    var counts := FillStatusCounts(grouped);
    forall s: BugStatus
      ensures counts[StatusName(s)] == |WithStatus(rows, s)|
    {
      CountOfGrouping(rows, s);
    }
    return Ok(ProjectStats(projects[p].name, projects[p].organizationId.value, counts));
  }

  /**
   * `getProjectStats`: one entry per project in the user's scope (keyed by
   * project, order not modelled), each counting every status, zeroes
   * included, and adding up to the project's bug count.
   */
  method GetProjectStats(projects: map<Id, Project>, bugs: map<Id, Bug>, users: map<Id, User>,
                         organizations: map<Id, Organization>, email: string) returns (r: Result<map<Id, ProjectStats>>)
    requires UsersOk(users)
    ensures !EmailTaken(users, email) ==> r == Err(Runtime("User not found"))
    ensures EmailTaken(users, email) ==>
      var scope := StatsScope(projects, bugs, organizations, FindByEmail(users, email).value);
      (r.Err? <==> exists p :: p in scope && projects[p].organizationId.None?)
      && (r.Err? ==> r.error == Runtime(""))
      && (r.Ok? ==> r.value.Keys == scope && forall p :: p in scope ==> DescribesProject(r.value[p], p, projects, bugs))
  {
    var u := FindByEmail(users, email);
    if u.None? {
      return Err(Runtime("User not found"));
    }
    var scope := StatsScope(projects, bugs, organizations, u.value);
    var remaining := scope;
    var result: map<Id, ProjectStats> := map[];
    while remaining != {}
      invariant remaining <= scope
      invariant result.Keys == scope - remaining
      invariant forall p :: p in result ==> DescribesProject(result[p], p, projects, bugs)
      decreases |remaining|
    {
      var p :| p in remaining;
      var entry := StatsOfProject(projects, bugs, p);
      if entry.Err? {
        return Err(entry.error);
      }
      result := result[p := entry.value];
      remaining := remaining - {p};
    }
    return Ok(result);
  }
}
