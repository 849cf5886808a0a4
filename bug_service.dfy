/**
 * The bug service: creating and updating bugs, the close/reopen rule, the
 * update permission, assignment with its skill check, the projection of a
 * bug onto its search document, and the role-scoped read paths.
 */
module BugService {

  import opened Base
  import opened Text
  import opened Entities
  import opened Db
  import opened BugRepository

  /**
   * The bug request. `requiredDeveloperTypes` is not a field of the request
   * class, yet the update reads it; it is an optional field here.
   */
  datatype BugRequest = BugRequest(
    title: string,
    description: string,
    severity: BugSeverity,
    projectId: Id,
    bugType: Option<BugType>,
    expectedTimeHours: Option<int>,
    actualTimeHours: Option<int>,
    requiredDeveloperTypes: Option<set<DeveloperType>>)

  // ---------------------------------------------------------------------
  // the search document
  // ---------------------------------------------------------------------

  /** The bug's assigned developer ids, in order. */
  function AssigneeIds(b: Bug): seq<Id> { b.assignedIds }

  /** The emails of the bug's assigned developers, in the same order. */
  function AssigneeEmails(b: Bug, users: map<Id, User>): (r: seq<string>)
    requires AssigneesOk(b, users)
    ensures |r| == |b.assignedIds|
    ensures forall i :: 0 <= i < |r| ==> r[i] == users[b.assignedIds[i]].email
  {
    seq(|b.assignedIds|, i requires 0 <= i < |b.assignedIds| => users[b.assignedIds[i]].email)
  }

  /** The inputs the projection reads exist. */
  predicate Indexable(b: Bug, projects: map<Id, Project>, users: map<Id, User>, organizations: map<Id, Organization>) {
    b.projectId in projects
    && AssigneesOk(b, users)
    && (projects[b.projectId].organizationId.Some? ==> projects[b.projectId].organizationId.value in organizations)
  }

  /**
   * `indexBugInElasticsearch`: the document copies the bug's own fields,
   * names its project, joins the assignees' ids and emails with ",", and
   * refers to the project's organisation exactly when there is one.
   */
  function IndexDocument(b: Bug, projects: map<Id, Project>, users: map<Id, User>, organizations: map<Id, Organization>): (d: BugDocument)
    requires Indexable(b, projects, users, organizations)
    ensures d.id == b.id && d.title == b.title && d.description == b.description
    ensures d.status == b.status && d.severity == b.severity && d.projectId == b.projectId
    ensures d.bugType == b.bugType && d.expectedTimeHours == b.expectedTimeHours && d.actualTimeHours == b.actualTimeHours
    ensures d.projectName == projects[b.projectId].name
    ensures d.assignedDeveloperId == Some(Text.Join(",", b.assignedIds))
    ensures d.assignedDeveloperEmail == Some(Text.Join(",", AssigneeEmails(b, users)))
    ensures d.reportedById == Some(b.reportedById)
    ensures d.organization.Some? <==> projects[b.projectId].organizationId.Some?
    ensures d.organization.Some? ==>
      var o := projects[b.projectId].organizationId.value;
      d.organization.value == OrganizationRef(o, organizations[o].name)
  {
    var p := projects[b.projectId];
    BugDocument(
      b.id, b.title, b.description, b.status, b.severity, b.projectId, p.name,
      Some(Text.Join(",", b.assignedIds)),
      Some(Text.Join(",", AssigneeEmails(b, users))),
      Some(b.reportedById),
      if p.organizationId.Some? then Some(OrganizationRef(p.organizationId.value, organizations[p.organizationId.value].name)) else None,
      b.bugType, b.expectedTimeHours, b.actualTimeHours)
  }

  /** An id that survives the comma join: non-empty and free of commas (true of UUIDs). */
  predicate JoinSafe(id: Id) { id != "" && ',' !in id }

  /**
   * Splitting the document's assignee field on "," gives back the bug's
   * assignees; an unassigned bug's field is the empty string, which splits
   * into one empty id.
   */
  lemma {:induction false} IndexedAssigneesRoundTrip(b: Bug, projects: map<Id, Project>, users: map<Id, User>, organizations: map<Id, Organization>)
    requires Indexable(b, projects, users, organizations)
    requires forall i :: 0 <= i < |b.assignedIds| ==> JoinSafe(b.assignedIds[i])
    ensures var d := IndexDocument(b, projects, users, organizations);
      d.assignedDeveloperId.Some?
      && (b.assignedIds != [] ==> JavaSplit(d.assignedDeveloperId.value, ',') == b.assignedIds)
      && (b.assignedIds == [] ==> JavaSplit(d.assignedDeveloperId.value, ',') == [""])
  {
    if b.assignedIds != [] {
      SplitJoinRoundTrip(b.assignedIds, ',');
    }
  }

  // ---------------------------------------------------------------------
  // the validate* rules
  // ---------------------------------------------------------------------

  /**
   * `validateUserCanUpdateBug`. The assigned-developer term asks a set of
   * users whether it contains a user id string, which is never true in
   * Java, so it is `false` here: only an ADMIN, or the PROJECT_MANAGER who
   * manages the bug's project, may update.
   */
  function ValidateUserCanUpdateBug(actor: User, b: Bug, projects: map<Id, Project>): (r: Option<Error>)
    requires b.projectId in projects
    ensures r.None? <==>
      (actor.role == Some(Admin) || (actor.role == Some(ProjectManager) && projects[b.projectId].managerId == actor.id))
    ensures r.Some? ==> r.value == ValidationOf("error", "User does not have permission to update this bug")
  {
    var isAssignedDeveloper := false;
    var isProjectManager := actor.role == Some(ProjectManager) && projects[b.projectId].managerId == actor.id;
    if !isAssignedDeveloper && !isProjectManager && actor.role != Some(Admin) then
      Some(ValidationOf("error", "User does not have permission to update this bug"))
    else None
  }

  /** A developer assigned to a bug is still refused the update unless they are also an admin or its manager. */
  lemma {:induction false} AssignedDeveloperCannotUpdate(actor: User, b: Bug, projects: map<Id, Project>)
    requires b.projectId in projects
    requires actor.id in b.assignedIds && actor.role == Some(Developer)
    ensures ValidateUserCanUpdateBug(actor, b, projects).Some?
  {
  }

  /** `validateStatusTransition`: a CLOSED bug may only move to REOPENED; any other status may move anywhere. */
  function ValidateStatusTransition(current: BugStatus, next: BugStatus): (r: Option<Error>)
    ensures r.None? <==> current != Closed || next == Reopened
    ensures r.Some? ==> r.value == ValidationOf("error", "Closed bugs can only be reopened")
  {
    if current == Closed && next != Reopened then Some(ValidationOf("error", "Closed bugs can only be reopened")) else None
  }

  /** `validateUserCanCreateBug` (declared but not called by any operation): only testers and developers. */
  function ValidateUserCanCreateBug(u: User): (r: Option<Error>)
    ensures r.None? <==> u.role == Some(Tester) || u.role == Some(Developer)
    ensures r.Some? ==> r.value == ValidationOf("error", "User does not have permission to create bugs")
  {
    if u.role != Some(Tester) && u.role != Some(Developer) then
      Some(ValidationOf("error", "User does not have permission to create bugs"))
    else None
  }

  /** `validateDeveloperAssignment` (declared but not called by any operation). */
  function ValidateDeveloperAssignment(u: User): (r: Option<Error>)
    ensures r.None? <==> u.role == Some(Developer)
    ensures r.Some? ==> r.value == ValidationOf("error", "User must have developer role for bug assignment")
  {
    if u.role != Some(Developer) then Some(ValidationOf("error", "User must have developer role for bug assignment")) else None
  }

  // ---------------------------------------------------------------------
  // field rules
  // ---------------------------------------------------------------------

  /**
   * The setter sequence of `updateBug`: title, description and severity are
   * always overwritten; bug type and expected time only when given; the
   * required developer types only when given and non-empty; nothing else changes.
   */
  function ApplyUpdate(b: Bug, request: BugRequest): (r: Bug)
    ensures r.title == request.title && r.description == request.description && r.severity == request.severity
    ensures r.bugType == (if request.bugType.Some? then request.bugType else b.bugType)
    ensures r.expectedTimeHours == (if request.expectedTimeHours.Some? then request.expectedTimeHours else b.expectedTimeHours)
    ensures r.requiredDeveloperTypes ==
      (if request.requiredDeveloperTypes.Some? && request.requiredDeveloperTypes.value != {}
       then request.requiredDeveloperTypes.value else b.requiredDeveloperTypes)
    ensures r.id == b.id && r.status == b.status && r.projectId == b.projectId && r.assignedIds == b.assignedIds
    ensures r.reportedById == b.reportedById && r.actualTimeHours == b.actualTimeHours
  {
    var b1 := b.(title := request.title, description := request.description, severity := request.severity);
    var b2 := if request.bugType.Some? then b1.(bugType := request.bugType) else b1;
    var b3 := if request.expectedTimeHours.Some? then b2.(expectedTimeHours := request.expectedTimeHours) else b2;
    if request.requiredDeveloperTypes.Some? && request.requiredDeveloperTypes.value != {}
    then b3.(requiredDeveloperTypes := request.requiredDeveloperTypes.value)
    else b3
  }

  /** An update whose request repeats the bug's own values leaves it as it was. */
  lemma {:induction false} ApplyUpdateOfOwnValues(b: Bug, request: BugRequest)
    requires request.title == b.title && request.description == b.description && request.severity == b.severity
    requires request.bugType.None? || request.bugType == b.bugType
    requires request.expectedTimeHours.None? || request.expectedTimeHours == b.expectedTimeHours
    requires request.requiredDeveloperTypes.None? || request.requiredDeveloperTypes == Some(b.requiredDeveloperTypes) || request.requiredDeveloperTypes == Some({})
    ensures ApplyUpdate(b, request) == b
  {
  }

  /** A developer has a required skill: a developer without a type never has one. */
  predicate HasRequiredSkill(u: User, required: set<DeveloperType>) {
    u.developerType.Some? && u.developerType.value in required
  }

  /** The users the ids name, in the same order. */
  function DevelopersOf(users: map<Id, User>, ids: seq<Id>): (r: seq<User>)
    requires forall i :: 0 <= i < |ids| ==> ids[i] in users
    ensures |r| == |ids| && forall i :: 0 <= i < |ids| ==> r[i] == users[ids[i]]
  {
    seq(|ids|, i requires 0 <= i < |ids| => users[ids[i]])
  }

  predicate AllSkilled(developers: seq<User>, required: set<DeveloperType>) {
    forall i :: 0 <= i < |developers| ==> HasRequiredSkill(developers[i], required)
  }

  /** Position `k` holds the first developer without a required skill. */
  predicate FirstUnskilledAt(developers: seq<User>, required: set<DeveloperType>, k: int) {
    0 <= k < |developers| && !HasRequiredSkill(developers[k], required)
    && forall i :: 0 <= i < k ==> HasRequiredSkill(developers[i], required)
  }

  /** The position of the first developer, in list order, without a required skill. */
  function FirstUnskilled(developers: seq<User>, required: set<DeveloperType>): (r: Option<nat>)
    ensures r.None? <==> AllSkilled(developers, required)
    ensures r.Some? ==> FirstUnskilledAt(developers, required, r.value)
    decreases |developers|
  {
    if developers == [] then None
    else if !HasRequiredSkill(developers[0], required) then Some(0)
    else
      var rest := FirstUnskilled(developers[1..], required);
      assert forall i :: 1 <= i < |developers| ==> developers[1..][i - 1] == developers[i];
      if rest.None? then None else Some(rest.value + 1)
  }

  /** Only one position can be the first without a required skill. */
  lemma {:induction false} FirstUnskilledAtUnique(developers: seq<User>, required: set<DeveloperType>, k: int)
    requires FirstUnskilledAt(developers, required, k)
    ensures FirstUnskilled(developers, required) == Some(k)
  {
    var r := FirstUnskilled(developers, required);
    assert !AllSkilled(developers, required);
    assert !(r.value < k) && !(k < r.value);
  }

  /** The forEach check of `assignBugToDevelopers`: the first developer, in list order, without a required skill. */
  method FindUnskilled(developers: seq<User>, required: set<DeveloperType>) returns (r: Option<nat>)
    ensures r == FirstUnskilled(developers, required)
  {
    var i := 0;
    while i < |developers|
      invariant 0 <= i <= |developers|
      invariant forall j :: 0 <= j < i ==> HasRequiredSkill(developers[j], required)
    {
      if !HasRequiredSkill(developers[i], required) {
        FirstUnskilledAtUnique(developers, required, i);
        return Some(i);
      }
      i := i + 1;
    }
    return None;
  }

  /** The message raised for a developer without the required skills. */
  function SkillError(u: User): Error {
    ValidationOf("error", "Developer " + u.email + " doesn't have required skills for this bug")
  }

  /** The developers `findAllById` returns for the requested ids. */
  function FoundDevelopers(users: map<Id, User>, developerIds: seq<Id>): seq<User> {
    DevelopersOf(users, FindAllById(users, developerIds))
  }

  /**
   * The message of the ClassCastException thrown by the `(Set<User>)` cast
   * of the List that `findAllById` returns.
   */
  const CastFailure := "java.util.List cannot be cast to class java.util.Set"

  /**
   * `assignBugToDevelopers` on a stored bug, as written: after the skill
   * check the looked-up List is cast to `Set<User>`, which always throws,
   * so the call never succeeds.
   */
  function AssignAsWritten(b: Bug, users: map<Id, User>, developerIds: seq<Id>): (r: Result<Bug>)
    ensures r.Err?
    ensures !AllSkilled(FoundDevelopers(users, developerIds), b.requiredDeveloperTypes) ==>
      exists k :: FirstUnskilledAt(FoundDevelopers(users, developerIds), b.requiredDeveloperTypes, k)
        && r == Err(SkillError(FoundDevelopers(users, developerIds)[k]))
    ensures AllSkilled(FoundDevelopers(users, developerIds), b.requiredDeveloperTypes) ==> r == Err(Runtime(CastFailure))
  {
    var developers := FoundDevelopers(users, developerIds);
    var k := FirstUnskilled(developers, b.requiredDeveloperTypes);
    if k.Some? then Err(SkillError(developers[k.value])) else Err(Runtime(CastFailure))
  }

  /**
   * `assignBugToDevelopers` on a stored bug, as evidently intended: once
   * every found developer has a required skill they become the assignees
   * and the bug is OPEN.
   */
  function AssignIntended(b: Bug, users: map<Id, User>, developerIds: seq<Id>): (r: Result<Bug>)
    ensures r.Ok? <==> AllSkilled(FoundDevelopers(users, developerIds), b.requiredDeveloperTypes)
    ensures r.Err? ==>
      exists k :: FirstUnskilledAt(FoundDevelopers(users, developerIds), b.requiredDeveloperTypes, k)
        && r == Err(SkillError(FoundDevelopers(users, developerIds)[k]))
    ensures r.Ok? ==> r.value.status == Open
  {
    var developers := FoundDevelopers(users, developerIds);
    var k := FirstUnskilled(developers, b.requiredDeveloperTypes);
    if k.Some? then Err(SkillError(developers[k.value]))
    else Ok(b.(assignedIds := FindAllById(users, developerIds), status := Open))
  }

  /**
   * The intended assignment: the assignees are exactly the requested ids
   * that name a user, each once and each with a required skill; every
   * other field of the bug is kept.
   */
  lemma {:induction false} IntendedAssignsSkilledRequested(b: Bug, users: map<Id, User>, developerIds: seq<Id>)
    requires AssignIntended(b, users, developerIds).Ok?
    ensures var a := AssignIntended(b, users, developerIds).value;
      Distinct(a.assignedIds)
      && (forall id :: id in a.assignedIds <==> id in developerIds && id in users)
      && (forall id :: id in a.assignedIds ==> HasRequiredSkill(users[id], b.requiredDeveloperTypes))
      && a.(assignedIds := b.assignedIds, status := b.status) == b
  {
    var found := FindAllById(users, developerIds);
    var developers := FoundDevelopers(users, developerIds);
    assert AllSkilled(developers, b.requiredDeveloperTypes);
    forall id | id in found ensures HasRequiredSkill(users[id], b.requiredDeveloperTypes) {
      var i :| 0 <= i < |found| && found[i] == id;
      assert developers[i] == users[id];
    }
  }

  /**
   * The code as written and the intended version fail alike; where the
   * intended version assigns, the code as written throws instead.
   */
  lemma {:induction false} AsWrittenFailsWhereIntendedAssigns(b: Bug, users: map<Id, User>, developerIds: seq<Id>)
    ensures AssignIntended(b, users, developerIds).Err? ==> AssignAsWritten(b, users, developerIds) == AssignIntended(b, users, developerIds)
    ensures AssignIntended(b, users, developerIds).Ok? ==> AssignAsWritten(b, users, developerIds) == Err(Runtime(CastFailure))
  {
    var developers := FoundDevelopers(users, developerIds);
    var k := FirstUnskilled(developers, b.requiredDeveloperTypes);
    assert AssignIntended(b, users, developerIds) ==
      if k.Some? then Err(SkillError(developers[k.value]))
      else Ok(b.(assignedIds := FindAllById(users, developerIds), status := Open));
    assert AssignAsWritten(b, users, developerIds) ==
      if k.Some? then Err(SkillError(developers[k.value])) else Err(Runtime(CastFailure));
  }

  /**
   * A bug needing BACKEND and one BACKEND developer: the code as written
   * answers with the cast failure, the intended version assigns them.
   */
  lemma CastFailsForSkilledDeveloper()
    ensures var d := User("d1", "d1@example.com", None, None, "", Some(Developer), Some(DeveloperType.Backend), true);
      var b := Bug("b1", "t", "", New, High, "p1", [], "r1", None, None, None, {DeveloperType.Backend});
      AssignAsWritten(b, map["d1" := d], ["d1"]) == Err(Runtime(CastFailure))
      && AssignIntended(b, map["d1" := d], ["d1"]) == Ok(b.(assignedIds := ["d1"], status := Open))
  {
    var d := User("d1", "d1@example.com", None, None, "", Some(Developer), Some(DeveloperType.Backend), true);
    var users := map["d1" := d];
    var ids: seq<Id> := ["d1"];
    assert ids[..0] == [];
    assert FoundIds(users, ids) == ids;
    var empty: seq<Id> := [];
    assert ids[..0] == empty;
    assert Dedup(ids) == ids;
    assert FoundDevelopers(users, ids) == [d];
  }

  // ---------------------------------------------------------------------
  // writes
  // ---------------------------------------------------------------------

  /**
   * `bugRepository.save` of an existing bug followed by `indexBugInElasticsearch`:
   * the row and its document are replaced together.
   */
  method SaveAndIndex(store: Store, b: Bug)
    requires store.Valid()
    requires b.projectId in store.projects && b.reportedById in store.users && AssigneesOk(b, store.users)
    modifies store`bugs, store`documents
    ensures store.Valid()
    ensures Indexable(b, store.projects, store.users, store.organizations)
    ensures store.bugs == old(store.bugs)[b.id := b]
    ensures store.documents == old(store.documents)[b.id := IndexDocument(b, store.projects, store.users, store.organizations)]
  {
    SaveBugKeepsIntegrity(store.bugs, store.projects, store.users, store.comments, b);
    store.bugs := store.bugs[b.id := b];
    store.documents := store.documents[b.id := IndexDocument(b, store.projects, store.users, store.organizations)];
  }

  /**
   * `createBug`: the bug is stored with status NEW, the actor as reporter,
   * the looked-up project and the request's title, description and
   * severity, then indexed. An unknown actor or project changes nothing.
   */
  method CreateBug(store: Store, request: BugRequest, email: string, newId: Id) returns (r: Result<Bug>)
    requires store.Valid()
    requires newId !in store.bugs
    modifies store`bugs, store`documents
    ensures store.Valid()
    ensures !EmailTaken(store.users, email) ==> r == Err(NotFound(NoSuchElement, "User not found"))
    ensures EmailTaken(store.users, email) && request.projectId !in store.projects ==>
      r == Err(NotFound(NoSuchElement, "Project not found with id " + request.projectId))
    ensures r.Ok? <==> EmailTaken(store.users, email) && request.projectId in store.projects
    ensures r.Err? ==> store.bugs == old(store.bugs) && store.documents == old(store.documents)
    ensures r.Ok? ==>
      EmailTaken(store.users, email) && request.projectId in store.projects
      && r.value == Bug(newId, request.title, request.description, New, request.severity, request.projectId,
                        [], FindByEmail(store.users, email).value.id, None, None, None, {})
      && store.bugs == old(store.bugs)[newId := r.value]
      && Indexable(r.value, store.projects, store.users, store.organizations)
      && store.documents == old(store.documents)[newId := IndexDocument(r.value, store.projects, store.users, store.organizations)]
  {
    var actor := FindByEmail(store.users, email);
    if actor.None? {
      return Err(NotFound(NoSuchElement, "User not found"));
    }
    if request.projectId !in store.projects {
      return Err(NotFound(NoSuchElement, "Project not found with id " + request.projectId));
    }
    var b := Bug(newId, request.title, request.description, New, request.severity, request.projectId,
                 [], actor.value.id, None, None, None, {});
    store.bugs := store.bugs[newId := b];
    store.documents := store.documents[newId := IndexDocument(b, store.projects, store.users, store.organizations)];
    return Ok(b);
  }

  /**
   * What `updateBug` answers: the bug, then the current user, must exist,
   * and the user must be allowed to update the bug; then the field rules
   * of ApplyUpdate give the new bug.
   */
  function UpdateOutcome(bugs: map<Id, Bug>, users: map<Id, User>, projects: map<Id, Project>,
                         bugId: Id, request: BugRequest, currentEmail: string): (r: Result<Bug>)
    requires UsersOk(users) && forall id :: id in bugs ==> bugs[id].projectId in projects
    ensures bugId !in bugs ==> r == Err(NotFound(NoSuchElement, "Bug not found"))
    ensures bugId in bugs && !EmailTaken(users, currentEmail) ==> r == Err(NotFound(NoSuchElement, "User not found"))
    ensures bugId in bugs && EmailTaken(users, currentEmail) ==>
      var refusal := ValidateUserCanUpdateBug(FindByEmail(users, currentEmail).value, bugs[bugId], projects);
      (refusal.Some? ==> r == Err(refusal.value))
      && (refusal.None? ==> r == Ok(ApplyUpdate(bugs[bugId], request)))
  {
    if bugId !in bugs then Err(NotFound(NoSuchElement, "Bug not found"))
    else
      var actor := FindByEmail(users, currentEmail);
      if actor.None? then Err(NotFound(NoSuchElement, "User not found"))
      else
        var refusal := ValidateUserCanUpdateBug(actor.value, bugs[bugId], projects);
        if refusal.Some? then Err(refusal.value) else Ok(ApplyUpdate(bugs[bugId], request))
  }

  /**
   * `updateBug`: after the bug and the current user are found and the
   * update permission holds, the field rules of ApplyUpdate are stored and
   * the bug is re-indexed; otherwise nothing changes.
   */
  method UpdateBug(store: Store, bugId: Id, request: BugRequest, currentEmail: string) returns (r: Result<Bug>)
    requires store.Valid()
    modifies store`bugs, store`documents
    ensures store.Valid()
    ensures r == UpdateOutcome(old(store.bugs), store.users, store.projects, bugId, request, currentEmail)
    ensures r.Err? ==> store.bugs == old(store.bugs) && store.documents == old(store.documents)
    ensures r.Ok? ==>
      store.bugs == old(store.bugs)[bugId := r.value]
      && Indexable(r.value, store.projects, store.users, store.organizations)
      && store.documents == old(store.documents)[bugId := IndexDocument(r.value, store.projects, store.users, store.organizations)]
  {
    if bugId !in store.bugs {
      return Err(NotFound(NoSuchElement, "Bug not found"));
    }
    var b := store.bugs[bugId];
    var actor := FindByEmail(store.users, currentEmail);
    if actor.None? {
      return Err(NotFound(NoSuchElement, "User not found"));
    }
    var refusal := ValidateUserCanUpdateBug(actor.value, b, store.projects);
    if refusal.Some? {
      return Err(refusal.value);
    }
    var updated := ApplyUpdate(b, request);
    assert b.projectId in store.projects && b.reportedById in store.users && AssigneesOk(b, store.users);
    assert AssigneesOk(updated, store.users);
    SaveAndIndex(store, updated);
    return Ok(updated);
  }

  /**
   * `assignBugToDevelopers` as written: an unknown bug is reported; the
   * skill check may report the first unskilled developer; otherwise the
   * `(Set<User>)` cast throws. Nothing is ever saved or re-indexed.
   */
  method AssignBugToDevelopers(store: Store, bugId: Id, developerIds: seq<Id>) returns (r: Result<Bug>)
    ensures bugId !in store.bugs ==> r == Err(NotFound(NoSuchElement, "Bug not found"))
    ensures bugId in store.bugs ==> r == AssignAsWritten(store.bugs[bugId], store.users, developerIds)
  {
    if bugId !in store.bugs {
      return Err(NotFound(NoSuchElement, "Bug not found"));
    }
    var b := store.bugs[bugId];
    var developers := FoundDevelopers(store.users, developerIds);
    var unskilled := FindUnskilled(developers, b.requiredDeveloperTypes);
    if unskilled.Some? {
      return Err(SkillError(developers[unskilled.value]));
    }
    return Err(Runtime(CastFailure));
  }

  /**
   * `assignBugToDevelopers` with the found developers turned into a set
   * rather than cast: the assignees become exactly the found developers and
   * the status becomes OPEN, whatever it was; a failed check changes nothing.
   */
  method AssignBugToDevelopersIntended(store: Store, bugId: Id, developerIds: seq<Id>) returns (r: Result<Bug>)
    requires store.Valid()
    modifies store`bugs, store`documents
    ensures store.Valid()
    ensures bugId !in old(store.bugs) ==> r == Err(NotFound(NoSuchElement, "Bug not found"))
    ensures bugId in old(store.bugs) ==> r == AssignIntended(old(store.bugs)[bugId], store.users, developerIds)
    ensures r.Err? ==> store.bugs == old(store.bugs) && store.documents == old(store.documents)
    ensures r.Ok? ==>
      store.bugs == old(store.bugs)[bugId := r.value]
      && Indexable(r.value, store.projects, store.users, store.organizations)
      && store.documents == old(store.documents)[bugId := IndexDocument(r.value, store.projects, store.users, store.organizations)]
  {
    if bugId !in store.bugs {
      return Err(NotFound(NoSuchElement, "Bug not found"));
    }
    var b := store.bugs[bugId];
    var found := FindAllById(store.users, developerIds);
    var developers := FoundDevelopers(store.users, developerIds);
    var unskilled := FindUnskilled(developers, b.requiredDeveloperTypes);
    if unskilled.Some? {
      return Err(SkillError(developers[unskilled.value]));
    }
    var updated := b.(assignedIds := found, status := Open);
    SaveAndIndex(store, updated);
    return Ok(updated);
  }

  /** `updateBugStatus`: any target from a status other than CLOSED; from CLOSED only REOPENED. */
  method UpdateBugStatus(store: Store, bugId: Id, newStatus: BugStatus) returns (r: Result<Bug>)
    requires store.Valid()
    modifies store`bugs, store`documents
    ensures store.Valid()
    ensures bugId !in old(store.bugs) ==> r == Err(NotFound(NoSuchElement, "Bug not found"))
    ensures bugId in old(store.bugs) ==>
      var b := old(store.bugs)[bugId];
      (b.status == Closed && newStatus != Reopened ==> r == Err(ValidationOf("error", "Closed bugs can only be reopened")))
      && (b.status != Closed || newStatus == Reopened ==> r == Ok(b.(status := newStatus)))
    ensures r.Err? ==> store.bugs == old(store.bugs) && store.documents == old(store.documents)
    ensures r.Ok? ==>
      store.bugs == old(store.bugs)[bugId := r.value]
      && Indexable(r.value, store.projects, store.users, store.organizations)
      && store.documents == old(store.documents)[bugId := IndexDocument(r.value, store.projects, store.users, store.organizations)]
  {
    if bugId !in store.bugs {
      return Err(NotFound(NoSuchElement, "Bug not found"));
    }
    var b := store.bugs[bugId];
    var refusal := ValidateStatusTransition(b.status, newStatus);
    if refusal.Some? {
      return Err(refusal.value);
    }
    var updated := b.(status := newStatus);
    SaveAndIndex(store, updated);
    return Ok(updated);
  }

  // ---------------------------------------------------------------------
  // reads
  // ---------------------------------------------------------------------

  /** The statuses `findActiveByProjectAndSeverity` excludes. */
  const ExcludedStatuses: set<BugStatus> := {Closed, Resolved}

  /** `findActiveByProjectAndSeverity` of the service: open work of one severity in one project. */
  function FindActiveBugs(bugs: map<Id, Bug>, projectId: Id, severity: BugSeverity): (r: set<Id>)
    ensures forall id :: id in r <==>
      id in bugs && bugs[id].projectId == projectId && bugs[id].severity == severity
      && bugs[id].status != Closed && bugs[id].status != Resolved
  {
    FindActiveByProjectAndSeverity(bugs, projectId, severity, ExcludedStatuses)
  }

  /** The projects a non-admin sees bugs of: assigned plus managed. */
  function VisibleProjects(projects: map<Id, Project>, userId: Id): set<Id> {
    AssignedProjects(projects, userId) + ManagedProjects(projects, userId)
  }

  /**
   * `getBugsForUser`: an ADMIN sees the bugs of the projects of the
   * organisations they belong to; anyone else the bugs of the projects they
   * are assigned to or manage (in both cases only projects with an
   * organisation, as the queries join it).
   */
  function GetBugsForUser(bugs: map<Id, Bug>, projects: map<Id, Project>, users: map<Id, User>,
                          organizations: map<Id, Organization>, email: string): (r: Result<set<Id>>)
    requires UsersOk(users)
    ensures !EmailTaken(users, email) <==> r == Err(Runtime("User not found"))
    ensures EmailTaken(users, email) ==> r.Ok?
    ensures r.Ok? ==> forall id :: id in r.value ==>
      (id in bugs && bugs[id].projectId in projects && projects[bugs[id].projectId].organizationId.Some?)
    ensures r.Ok? && FindByEmail(users, email).value.role != Some(Admin) ==>
      var u := FindByEmail(users, email).value;
      forall id :: id in r.value <==>
        (id in bugs && bugs[id].projectId in projects && projects[bugs[id].projectId].organizationId.Some?
         && (u.id in projects[bugs[id].projectId].assignedUserIds || projects[bugs[id].projectId].managerId == u.id))
    ensures r.Ok? && FindByEmail(users, email).value.role == Some(Admin) ==>
      var u := FindByEmail(users, email).value;
      forall id :: id in r.value <==>
        (id in bugs && bugs[id].projectId in projects && projects[bugs[id].projectId].organizationId.Some?
         && projects[bugs[id].projectId].organizationId.value in organizations
         && u.id in organizations[projects[bugs[id].projectId].organizationId.value].userIds)
  {
    var u := FindByEmail(users, email);
    if u.None? then Err(Runtime("User not found"))
    else if u.value.role == Some(Admin) then
      Ok(FindByProjectOrganizationIdIn(bugs, projects, OrganizationsOf(organizations, u.value.id)))
    else
      Ok(FindByProjectIdIn(bugs, projects, VisibleProjects(projects, u.value.id)))
  }

  /**
   * `getBugStatisticsForUser`: an ADMIN gets the statistics of every bug;
   * a PROJECT_MANAGER, DEVELOPER or TESTER those of the projects they
   * manage; a user without a role is refused with "Invalid role".
   */
  function GetBugStatisticsForUser(bugs: map<Id, Bug>, projects: map<Id, Project>, users: map<Id, User>, email: string): (r: Result<map<BugStatus, nat>>)
    requires UsersOk(users)
    ensures !EmailTaken(users, email) ==> r == Err(Runtime("User not found"))
    ensures EmailTaken(users, email) ==>
      var u := FindByEmail(users, email).value;
      (u.role == Some(Admin) ==> r == Ok(GroupByStatus(bugs)))
      && (u.role.Some? && u.role != Some(Admin) ==> r == Ok(GroupByStatus(InProjects(bugs, ManagedProjects(projects, u.id)))))
      && (u.role.None? ==> r == Err(Runtime("Invalid role")))
  {
    var u := FindByEmail(users, email);
    if u.None? then Err(Runtime("User not found"))
    else if u.value.role == Some(Admin) then Ok(FindBugStatistics(bugs))
    else if u.value.role.None? then Err(Runtime("Invalid role"))
    else
      // PROJECT_MANAGER, DEVELOPER and TESTER
      Ok(FindBugStatisticsByProjectIdIn(bugs, ManagedProjects(projects, u.value.id)))
  }

  /** The statistics of a non-admin add up to the number of bugs in the projects they manage, never more. */
  lemma {:induction false} UserStatisticsTotal(bugs: map<Id, Bug>, projects: map<Id, Project>, users: map<Id, User>, email: string)
    requires UsersOk(users)
    requires GetBugStatisticsForUser(bugs, projects, users, email).Ok?
    ensures var u := FindByEmail(users, email).value;
      Total(GetBugStatisticsForUser(bugs, projects, users, email).value, AllStatuses) ==
        (if u.role == Some(Admin) then |bugs| else |InProjects(bugs, ManagedProjects(projects, u.id))|)
  {
    var u := FindByEmail(users, email).value;
    if u.role == Some(Admin) {
      GroupByStatusTotal(bugs);
    } else {
      GroupByStatusTotal(InProjects(bugs, ManagedProjects(projects, u.id)));
    }
  }

  /** The message of the IllegalArgumentException `BugStatus.valueOf` raises. */
  function NoEnumConstant(name: string): string {
    "No enum constant com.swayam.bugwise.enums.BugStatus." + name
  }

  /**
   * `searchBugsInProject`. `searchHits` is what the Elasticsearch query
   * returned for the term (it is not consulted when the term is empty). A
   * non-empty term without hits gives the empty page; otherwise the bugs of
   * the project, restricted to the hits if there are any and to the status
   * if one is named; an unknown status name is an IllegalArgumentException.
   */
  function SearchBugsInProjectService(bugs: map<Id, Bug>, projectId: Id, term: string, status: string, searchHits: seq<Id>): (r: Result<set<Id>>)
    ensures term != "" && searchHits == [] ==> r == Ok({})
    ensures r.Err? <==> (term == "" || searchHits != []) && status != "" && ParseStatus(status).None?
    ensures r.Err? ==> r.error == IllegalArgument(NoEnumConstant(status))
    ensures r.Ok? && (term == "" || searchHits != []) ==>
      forall id :: id in r.value <==>
        (id in bugs && bugs[id].projectId == projectId
         && (term != "" ==> id in searchHits)
         && (status != "" ==> StatusName(bugs[id].status) == status))
  {
    var ids := if term != "" then searchHits else [];
    if term != "" && ids == [] then Ok({})
    else if status != "" && ParseStatus(status).None? then Err(IllegalArgument(NoEnumConstant(status)))
    else
      Ok(set id | id in bugs && bugs[id].projectId == projectId
                  && (ids != [] ==> id in ids)
                  && (status != "" ==> bugs[id].status == ParseStatus(status).value))
  }

  /**
   * `getAssignedBugsForDeveloperInProject`: only for a developer assigned
   * to the project; the bugs of that project assigned to them. Mapping a
   * bug whose project has no organisation dereferences null.
   */
  function GetAssignedBugsForDeveloperInProject(bugs: map<Id, Bug>, projects: map<Id, Project>, users: map<Id, User>,
                                                email: string, projectId: Id): (r: Result<set<Id>>)
    requires UsersOk(users)
    ensures !EmailTaken(users, email) ==> r == Err(NotFound(NoSuchElement, "User not found"))
    ensures EmailTaken(users, email) && projectId !in AssignedProjects(projects, FindByEmail(users, email).value.id) ==>
      r == Err(ValidationOf("error", "Developer is not assigned to this project"))
    ensures r.Ok? ==>
      var u := FindByEmail(users, email).value;
      projectId in projects && u.id in projects[projectId].assignedUserIds
      && (forall id :: id in r.value <==> id in bugs && bugs[id].projectId == projectId && u.id in bugs[id].assignedIds)
    ensures r.Err? && EmailTaken(users, email) && projectId in AssignedProjects(projects, FindByEmail(users, email).value.id) ==>
      r == Err(Runtime("")) && projects[projectId].organizationId.None?
    ensures EmailTaken(users, email) && projectId in AssignedProjects(projects, FindByEmail(users, email).value.id) ==>
      (r.Err? <==> FindByProjectIdAndAssignedDeveloperId(bugs, projectId, FindByEmail(users, email).value.id) != {}
                   && projects[projectId].organizationId.None?)
  {
    var u := FindByEmail(users, email);
    if u.None? then Err(NotFound(NoSuchElement, "User not found"))
    else if projectId !in AssignedProjects(projects, u.value.id) then
      Err(ValidationOf("error", "Developer is not assigned to this project"))
    else
      var found := FindByProjectIdAndAssignedDeveloperId(bugs, projectId, u.value.id);
      if found != {} && projects[projectId].organizationId.None? then Err(Runtime(""))
      else Ok(found)
  }
}
