/**
 * The user service: profile updates under the unique-email rule, the
 * developer listing, and the role-keyed count of the users below someone.
 */
module UserService {

  import opened Base
  import opened Entities
  import opened Db

  datatype UpdateUserRequest = UpdateUserRequest(email: string, firstName: Option<string>, lastName: Option<string>)

  /** A user keeping their own email, or moving to a free one, keeps the emails unique. */
  lemma {:induction false} SaveUserKeepsIntegrity(store: Store, u: User)
    requires store.Valid() && u.id in store.users
    requires u.email == store.users[u.id].email || !EmailTaken(store.users, u.email)
    ensures UsersOk(store.users[u.id := u])
  {
  }

  /**
   * `updateUserDetails`: a changed email must be free ("Email is already
   * taken" otherwise, nothing saved); an unchanged email is not checked;
   * first and last name are always overwritten.
   */
  method UpdateUserDetails(store: Store, email: string, request: UpdateUserRequest) returns (r: Result<User>)
    requires store.Valid()
    modifies store`users
    ensures store.Valid()
    ensures !EmailTaken(old(store.users), email) ==> r == Err(Runtime("User not found"))
    ensures EmailTaken(old(store.users), email) ==>
      var u := FindByEmail(old(store.users), email).value;
      (u.email != request.email && EmailTaken(old(store.users), request.email) ==>
         r == Err(ValidationOf("email", "Email is already taken")))
      && (u.email == request.email || !EmailTaken(old(store.users), request.email) ==>
         r == Ok(u.(email := request.email, firstName := request.firstName, lastName := request.lastName)))
    ensures r.Err? ==> store.users == old(store.users)
    ensures r.Ok? ==> store.users == old(store.users)[r.value.id := r.value]
  {
    var found := FindByEmail(store.users, email);
    if found.None? {
      return Err(Runtime("User not found"));
    }
    var u := found.value;
    if u.email != request.email {
      if EmailTaken(store.users, request.email) {
        return Err(ValidationOf("email", "Email is already taken"));
      }
      u := u.(email := request.email);
    }
    u := u.(firstName := request.firstName, lastName := request.lastName);
    SaveUserKeepsIntegrity(store, u);
    AddUserKeepsReferences(store.users, store.organizations, store.projects, store.bugs, store.comments, u);
    store.users := store.users[u.id := u];
    return Ok(u);
  }

  /**
   * `findDevelopers`: the DEVELOPERs assigned to the project when a project
   * is named, else the DEVELOPERs of the organisation when one is named, else none.
   */
  function FindDevelopers(users: map<Id, User>, projects: map<Id, Project>, organizations: map<Id, Organization>,
                          projectId: Option<Id>, organizationId: Option<Id>): (r: set<Id>)
    ensures r <= users.Keys
    ensures forall id :: id in r ==> users[id].role == Some(Developer)
    ensures projectId.Some? ==> forall id :: id in r <==>
      (id in users && users[id].role == Some(Developer) && projectId.value in AssignedProjects(projects, id))
    ensures projectId.None? && organizationId.Some? ==> forall id :: id in r <==>
      (id in users && users[id].role == Some(Developer) && organizationId.value in OrganizationsOf(organizations, id))
    ensures projectId.None? && organizationId.None? ==> r == {}
  {
    if projectId.Some? then
      set id | id in users && users[id].role == Some(Developer) && projectId.value in AssignedProjects(projects, id)
    else if organizationId.Some? then
      set id | id in users && users[id].role == Some(Developer) && organizationId.value in OrganizationsOf(organizations, id)
    else {}
  }

  /** A named project wins: the organisation is then not consulted. */
  lemma {:induction false} ProjectTakesPrecedence(users: map<Id, User>, projects: map<Id, Project>, organizations: map<Id, Organization>,
                                                 projectId: Id, organizationId: Option<Id>)
    ensures FindDevelopers(users, projects, organizations, Some(projectId), organizationId)
         == FindDevelopers(users, projects, organizations, Some(projectId), None)
  {
  }

  // ---------------------------------------------------------------------
  // getDescendantUserCount
  // ---------------------------------------------------------------------

  /** `findByAdmin`: the organisations the user administers. */
  function AdministeredOrganizations(organizations: map<Id, Organization>, userId: Id): (r: set<Id>)
    ensures forall o :: o in r <==> o in organizations && organizations[o].adminId == Some(userId)
  {
    set o | o in organizations && organizations[o].adminId == Some(userId)
  }

  /** The sum of a per-organisation count over a set of organisations. */
  ghost function SumOver(orgs: set<Id>, role: UserRole, count: (Id, UserRole) -> nat): nat
    decreases |orgs|
  {
    if orgs == {} then 0
    else
      var o :| o in orgs;
      count(o, role) + SumOver(orgs - {o}, role, count)
  }

  /** The sum does not depend on the order the organisations are taken in. */
  lemma {:induction false} SumOverRemove(orgs: set<Id>, role: UserRole, count: (Id, UserRole) -> nat, y: Id)
    requires y in orgs
    ensures SumOver(orgs, role, count) == count(y, role) + SumOver(orgs - {y}, role, count)
    decreases |orgs|
  {
    var o :| o in orgs && SumOver(orgs, role, count) == count(o, role) + SumOver(orgs - {o}, role, count);
    if o != y {
      SumOverRemove(orgs - {o}, role, count, y);
      SumOverRemove(orgs - {y}, role, count, o);
      assert orgs - {o} - {y} == orgs - {y} - {o};
    }
  }

  lemma {:induction false} SumOverAdd(done: set<Id>, role: UserRole, count: (Id, UserRole) -> nat, o: Id)
    requires o !in done
    ensures SumOver(done + {o}, role, count) == SumOver(done, role, count) + count(o, role)
  {
    SumOverRemove(done + {o}, role, count, o);
    assert done + {o} - {o} == done;
  }

  function GetOrZero(m: map<UserRole, nat>, role: UserRole): nat {
    if role in m then m[role] else 0
  }

  /** The three totals over a non-empty set of administered organisations. */
  ghost function Totals(orgs: set<Id>, orgCount: (Id, UserRole) -> nat): map<UserRole, nat> {
    map[ProjectManager := SumOver(orgs, ProjectManager, orgCount),
        Developer := SumOver(orgs, Developer, orgCount),
        Tester := SumOver(orgs, Tester, orgCount)]
  }

  /** The map after the organisations in `done`: empty before the first one, then the three totals. */
  ghost function RunningTotals(done: set<Id>, orgCount: (Id, UserRole) -> nat): map<UserRole, nat> {
    if done == {} then map[] else Totals(done, orgCount)
  }

  /**
   * The loop over the administered organisations: for each of
   * PROJECT_MANAGER, DEVELOPER and TESTER the running total plus the
   * organisation's count; no entry before the first organisation.
   */
  method SumAdministeredCounts(administered: set<Id>, orgCount: (Id, UserRole) -> nat) returns (counts: map<UserRole, nat>)
    ensures counts == RunningTotals(administered, orgCount)
    ensures administered == {} ==> counts == map[]
    ensures administered != {} ==> counts == Totals(administered, orgCount)
  {
    var remaining := administered;
    var done: set<Id> := {};
    counts := map[];
    while remaining != {}
      invariant done == administered - remaining && remaining <= administered
      invariant counts == RunningTotals(done, orgCount)
      decreases |remaining|
    {
      var o :| o in remaining;
      counts := AddOrganizationCounts(counts, done, o, orgCount);
      done := done + {o};
      remaining := remaining - {o};
    }
    assert done == administered;
  }

  /** One step of the loop: the running totals over `done` become totals over `done + {o}`. */
  function AddOrganizationCounts(counts: map<UserRole, nat>, done: set<Id>, o: Id, orgCount: (Id, UserRole) -> nat): (r: map<UserRole, nat>)
    requires o !in done && counts == RunningTotals(done, orgCount)
    ensures r == RunningTotals(done + {o}, orgCount)
  {
    SumOverAdd(done, ProjectManager, orgCount, o);
    SumOverAdd(done, Developer, orgCount, o);
    SumOverAdd(done, Tester, orgCount, o);
    assert done == {} ==> SumOver(done, ProjectManager, orgCount) == 0 && SumOver(done, Developer, orgCount) == 0 && SumOver(done, Tester, orgCount) == 0;
    counts[ProjectManager := GetOrZero(counts, ProjectManager) + orgCount(o, ProjectManager)]
          [Developer := GetOrZero(counts, Developer) + orgCount(o, Developer)]
          [Tester := GetOrZero(counts, Tester) + orgCount(o, Tester)]
  }

  /**
   * `getDescendantUserCount`. `orgCount(o, role)` and `projectCount(ps,
   * role)` stand for the repository's active-user counts. An ADMIN gets,
   * for PROJECT_MANAGER, DEVELOPER and TESTER, the sum of the counts over
   * the organisations they administer (no entry at all without such an
   * organisation, never an ADMIN entry); a PROJECT_MANAGER gets exactly the
   * DEVELOPER and TESTER counts over the projects they manage; anyone else
   * is refused.
   */
  method GetDescendantUserCount(users: map<Id, User>, organizations: map<Id, Organization>, projects: map<Id, Project>,
                                username: string, orgCount: (Id, UserRole) -> nat, projectCount: (set<Id>, UserRole) -> nat)
    returns (r: Result<map<UserRole, nat>>)
    requires UsersOk(users)
    ensures !EmailTaken(users, username) ==> r == Err(Authentication("User not found"))
    ensures EmailTaken(users, username) ==>
      var u := FindByEmail(users, username).value;
      var administered := AdministeredOrganizations(organizations, u.id);
      (u.role == Some(Admin) && administered == {} ==> r == Ok(map[]))
      && (u.role == Some(Admin) && administered != {} ==> r == Ok(Totals(administered, orgCount)))
      && (u.role == Some(ProjectManager) ==>
            var managed := ManagedProjects(projects, u.id);
            r == Ok(map[Developer := projectCount(managed, Developer), Tester := projectCount(managed, Tester)]))
      && (u.role != Some(Admin) && u.role != Some(ProjectManager) ==>
            r == Err(Unauthorized("You do not have permission to view descendant user counts.")))
    ensures r.Ok? ==> Admin !in r.value
  {
    var found := FindByEmail(users, username);
    if found.None? {
      return Err(Authentication("User not found"));
    }
    var u := found.value;
    if u.role == Some(Admin) {
      var counts := SumAdministeredCounts(AdministeredOrganizations(organizations, u.id), orgCount);
      return Ok(counts);
    } else if u.role == Some(ProjectManager) {
      var managed := ManagedProjects(projects, u.id);
      return Ok(map[Developer := projectCount(managed, Developer), Tester := projectCount(managed, Tester)]);
    } else {
      return Err(Unauthorized("You do not have permission to view descendant user counts."));
    }
  }

  /** With a single administered organisation the ADMIN's counts are that organisation's counts. */
  lemma {:induction false} SumOverSingle(o: Id, role: UserRole, count: (Id, UserRole) -> nat)
    ensures SumOver({o}, role, count) == count(o, role)
  {
    SumOverRemove({o}, role, count, o);
    assert {o} - {o} == {};
  }
}
