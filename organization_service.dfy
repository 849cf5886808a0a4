/**
 * The organisation service: creation with unique names, admin-only access,
 * membership changes that never drop the admin, and per-organisation counts.
 */
module OrganizationService {

  import opened Base
  import opened Entities
  import opened Db

  datatype OrganizationRequest = OrganizationRequest(name: string, description: string)

  /** `OrganizationDTO`: the name and description only. */
  datatype OrganizationView = OrganizationView(name: string, description: string)

  datatype OrganizationStats = OrganizationStats(organizationName: string, projectCount: nat, memberCount: nat)

  const NameTaken: Error := ValidationOf("name", "Organization name already exists")

  /** Adding an organisation whose name is new, admin and members existing, keeps every table consistent. */
  lemma {:induction false} SaveNewOrganizationKeepsIntegrity(store: Store, o: Organization)
    requires store.Valid() && o.id !in store.organizations && !OrganizationNameTaken(store.organizations, o.name)
    requires (o.adminId.Some? ==> o.adminId.value in store.users) && o.userIds <= store.users.Keys
    ensures OrganizationsOk(store.organizations[o.id := o], store.users)
    ensures ProjectsOk(store.projects, store.users, store.organizations[o.id := o])
  {
  }

  /**
   * `createOrganization(request, admin)`: a new organisation administered
   * by the admin, whose only member is the admin; a taken name saves nothing.
   */
  method CreateOrganization(store: Store, request: OrganizationRequest, adminId: Id, newId: Id) returns (r: Result<Organization>)
    requires store.Valid()
    requires adminId in store.users && newId !in store.organizations
    modifies store`organizations
    ensures store.Valid()
    ensures r.Err? <==> OrganizationNameTaken(old(store.organizations), request.name)
    ensures r.Err? ==> r.error == NameTaken && store.organizations == old(store.organizations)
    ensures r.Ok? ==>
      r.value == Organization(newId, request.name, request.description, Some(adminId), {adminId})
      && store.organizations == old(store.organizations)[newId := r.value]
  {
    if OrganizationNameTaken(store.organizations, request.name) {
      return Err(NameTaken);
    }
    var o := Organization(newId, request.name, request.description, Some(adminId), {adminId});
    SaveNewOrganizationKeepsIntegrity(store, o);
    store.organizations := store.organizations[newId := o];
    return Ok(o);
  }

  /** `createOrganization(dto)`: the same name check, but no admin and no members. */
  method CreateOrganizationFromView(store: Store, request: OrganizationView, newId: Id) returns (r: Result<Organization>)
    requires store.Valid()
    requires newId !in store.organizations
    modifies store`organizations
    ensures store.Valid()
    ensures r.Err? <==> OrganizationNameTaken(old(store.organizations), request.name)
    ensures r.Err? ==> r.error == NameTaken && store.organizations == old(store.organizations)
    ensures r.Ok? ==>
      r.value == Organization(newId, request.name, request.description, None, {})
      && store.organizations == old(store.organizations)[newId := r.value]
  {
    if OrganizationNameTaken(store.organizations, request.name) {
      return Err(NameTaken);
    }
    var o := Organization(newId, request.name, request.description, None, {});
    SaveNewOrganizationKeepsIntegrity(store, o);
    store.organizations := store.organizations[newId := o];
    return Ok(o);
  }

  /**
   * `updateOrganization`: the id of the organisation to update is not used;
   * after the name check a new organisation, without admin or members, is
   * saved under a fresh id and the existing one is left as it was.
   */
  method UpdateOrganization(store: Store, id: Id, request: OrganizationRequest, newId: Id) returns (r: Result<Organization>)
    requires store.Valid()
    requires newId !in store.organizations
    modifies store`organizations
    ensures store.Valid()
    ensures r.Err? <==> OrganizationNameTaken(old(store.organizations), request.name)
    ensures r.Err? ==> r.error == NameTaken && store.organizations == old(store.organizations)
    ensures r.Ok? ==>
      r.value == Organization(newId, request.name, request.description, None, {})
      && store.organizations == old(store.organizations)[newId := r.value]
    ensures id in old(store.organizations) ==> id in store.organizations && store.organizations[id] == old(store.organizations)[id]
  {
    if OrganizationNameTaken(store.organizations, request.name) {
      return Err(NameTaken);
    }
    var o := Organization(newId, request.name, request.description, None, {});
    SaveNewOrganizationKeepsIntegrity(store, o);
    store.organizations := store.organizations[newId := o];
    return Ok(o);
  }

  /** `Organization.isAdmin`; with no admin the call dereferences null (None). */
  function IsAdmin(o: Organization, u: User): (r: Option<bool>)
    ensures r.None? <==> o.adminId.None?
    ensures r.Some? ==> (r.value <==> o.adminId.value == u.id)
  {
    if o.adminId.None? then None else Some(o.adminId.value == u.id)
  }

  /** `getOrganization`: only the organisation's admin may read it. */
  function GetOrganization(organizations: map<Id, Organization>, id: Id, u: User): (r: Result<OrganizationView>)
    ensures id !in organizations ==> r == Err(NotFound(NoSuchElement, "Organization not found"))
    ensures r.Ok? ==>
      id in organizations && organizations[id].adminId == Some(u.id)
      && r.value == OrganizationView(organizations[id].name, organizations[id].description)
    ensures id in organizations && organizations[id].adminId.Some? && organizations[id].adminId.value != u.id ==>
      r == Err(Unauthorized("You are not authorized to access this organization"))
    ensures id in organizations && organizations[id].adminId.None? ==> r == Err(Runtime(""))
  {
    if id !in organizations then Err(NotFound(NoSuchElement, "Organization not found"))
    else
      var admin := IsAdmin(organizations[id], u);
      if admin.None? then Err(Runtime(""))
      else if !admin.value then Err(Unauthorized("You are not authorized to access this organization"))
      else Ok(OrganizationView(organizations[id].name, organizations[id].description))
  }

  /** The admin always gets the organisation they administer. */
  lemma {:induction false} AdminReadsOwnOrganization(organizations: map<Id, Organization>, id: Id, u: User)
    requires id in organizations && organizations[id].adminId == Some(u.id)
    ensures GetOrganization(organizations, id, u).Ok?
  {
  }

  /** `organizationRepository.save` of an organisation whose member set changed. */
  method SaveMembers(store: Store, organizationId: Id, members: set<Id>)
    requires store.Valid() && organizationId in store.organizations && members <= store.users.Keys
    modifies store`organizations
    ensures store.Valid()
    ensures store.organizations == old(store.organizations)[organizationId := old(store.organizations)[organizationId].(userIds := members)]
  {
    var o := store.organizations[organizationId];
    ReplaceOrganizationKeepsIntegrity(store.organizations, store.users, store.projects, o.(userIds := members));
    store.organizations := store.organizations[organizationId := o.(userIds := members)];
  }

  /**
   * `addUsersToOrganization`: all ids must name users ("One or more users
   * not found" otherwise, nothing changes); they then join the members.
   */
  method AddUsersToOrganization(store: Store, organizationId: Id, userIds: set<Id>) returns (r: Result<Organization>)
    requires store.Valid()
    modifies store`organizations
    ensures store.Valid()
    ensures organizationId !in store.organizations ==> r == Err(NotFound(NoSuchElement, "Organization not found"))
    ensures organizationId in store.organizations && !(userIds <= store.users.Keys) ==>
      r == Err(NotFound(NoSuchElement, "One or more users not found"))
    ensures r.Ok? <==> organizationId in old(store.organizations) && userIds <= store.users.Keys
    ensures r.Err? ==> store.organizations == old(store.organizations)
    ensures r.Ok? ==>
      r.value == old(store.organizations)[organizationId].(userIds := old(store.organizations)[organizationId].userIds + userIds)
      && store.organizations == old(store.organizations)[organizationId := r.value]
  {
    if organizationId !in store.organizations {
      return Err(NotFound(NoSuchElement, "Organization not found"));
    }
    var found := userIds * store.users.Keys;
    AllFoundBySize(userIds, store.users.Keys);
    if |found| != |userIds| {
      return Err(NotFound(NoSuchElement, "One or more users not found"));
    }
    var o := store.organizations[organizationId];
    var updated := o.(userIds := o.userIds + found);
    SaveMembers(store, organizationId, updated.userIds);
    return Ok(updated);
  }

  /** The size comparison of `addUsersToOrganization` holds exactly when every requested id names a user. */
  lemma {:induction false} AllFoundBySize<T>(ids: set<T>, known: set<T>)
    ensures |ids * known| == |ids| <==> ids <= known
    ensures ids <= known ==> ids * known == ids
  {
    if |ids * known| == |ids| {
      SubsetOfSameSize(ids * known, ids);
    }
    if ids <= known {
      assert ids * known == ids;
    }
  }

  /** A subset with as many elements as the whole set is that set. */
  lemma {:induction false} SubsetOfSameSize<T>(a: set<T>, b: set<T>)
    requires a <= b && |a| == |b|
    ensures a == b
  {
    if a != b {
      var x :| x in b && x !in a;
      SubsetSize(a, b - {x});
    }
  }

  /**
   * `removeUserFromOrganization`: the admin cannot be removed; any other
   * user stops being a member, and the other members stay.
   */
  method RemoveUserFromOrganization(store: Store, organizationId: Id, userId: Id) returns (r: Result<Organization>)
    requires store.Valid()
    modifies store`organizations
    ensures store.Valid()
    ensures organizationId !in store.organizations ==>
      r == Err(NotFound(NoSuchElement, "Organization not found with id: " + organizationId))
    ensures organizationId in old(store.organizations) && old(store.organizations)[organizationId].adminId == Some(userId) ==>
      r == Err(Unauthorized("Cannot remove admin user from organization"))
    ensures r.Ok? <==> organizationId in old(store.organizations) && old(store.organizations)[organizationId].adminId != Some(userId)
    ensures r.Err? ==> store.organizations == old(store.organizations)
    ensures r.Ok? ==>
      r.value == old(store.organizations)[organizationId].(userIds := old(store.organizations)[organizationId].userIds - {userId})
      && store.organizations == old(store.organizations)[organizationId := r.value]
  {
    if organizationId !in store.organizations {
      return Err(NotFound(NoSuchElement, "Organization not found with id: " + organizationId));
    }
    var o := store.organizations[organizationId];
    if o.adminId.Some? && o.adminId.value == userId {
      return Err(Unauthorized("Cannot remove admin user from organization"));
    }
    var updated := o.(userIds := o.userIds - {userId});
    SaveMembers(store, organizationId, updated.userIds);
    return Ok(updated);
  }

  /** An admin who is a member stays a member whatever user removal is attempted. */
  lemma {:induction false} AdminStaysMember(o: Organization, userId: Id)
    requires o.adminId.Some? && o.adminId.value in o.userIds
    ensures o.adminId != Some(userId) ==> o.adminId.value in o.userIds - {userId}
  {
  }

  /** `getOrganizationStats`: per organisation, how many projects it has and how many members. */
  function GetOrganizationStats(organizations: map<Id, Organization>, projects: map<Id, Project>): (r: map<Id, OrganizationStats>)
    ensures r.Keys == organizations.Keys
    ensures forall id :: id in r ==>
      r[id].organizationName == organizations[id].name
      && r[id].projectCount == |ProjectsOf(projects, id)|
      && r[id].memberCount == |organizations[id].userIds|
  {
    map id | id in organizations :: OrganizationStats(organizations[id].name, |ProjectsOf(projects, id)|, |organizations[id].userIds|)
  }

  /** Under consistent tables no organisation counts more members than there are users. */
  lemma {:induction false} MemberCountBounded(organizations: map<Id, Organization>, projects: map<Id, Project>, users: map<Id, User>, id: Id)
    requires OrganizationsOk(organizations, users) && id in organizations
    ensures GetOrganizationStats(organizations, projects)[id].memberCount <= |users|
  {
    assert organizations[id].userIds <= users.Keys;
    SubsetSize(organizations[id].userIds, users.Keys);
  }

  /** `getOrganizationsForUser`: every organisation for an ADMIN, their own organisations for anyone else. */
  function GetOrganizationsForUser(organizations: map<Id, Organization>, users: map<Id, User>, email: string): (r: Result<set<Id>>)
    requires UsersOk(users)
    ensures !EmailTaken(users, email) <==> r == Err(Runtime("User not found"))
    ensures EmailTaken(users, email) ==> r.Ok?
    ensures r.Ok? && FindByEmail(users, email).value.role == Some(Admin) ==> r.value == organizations.Keys
    ensures r.Ok? && FindByEmail(users, email).value.role != Some(Admin) ==>
      forall o :: o in r.value <==> o in organizations && FindByEmail(users, email).value.id in organizations[o].userIds
  {
    var u := FindByEmail(users, email);
    if u.None? then Err(Runtime("User not found"))
    else if u.value.role == Some(Admin) then Ok(organizations.Keys)
    else Ok(OrganizationsOf(organizations, u.value.id))
  }
}
