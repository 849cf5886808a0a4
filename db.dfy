/**
 * The persistent state the services work on: one table per JPA repository,
 * the Elasticsearch bug index, the chat-message table and the sequence of
 * everything published to queues, topics and sockets. Lookups and the
 * inverse (mappedBy) sides of the relationships are functions of the tables.
 */
module Db {

  import opened Base
  import opened Entities
  import opened ChatMessages

  // ---------------------------------------------------------------------
  // integrity of the tables
  // ---------------------------------------------------------------------

  /** Every user is stored under its own id, and emails are unique (the column is unique). */
  predicate UsersOk(users: map<Id, User>) {
    (forall id :: id in users ==> users[id].id == id)
    && (forall a, b :: a in users && b in users && users[a].email == users[b].email ==> a == b)
  }

  /** Organisations are stored under their id, names are unique, admins and members exist. */
  predicate OrganizationsOk(organizations: map<Id, Organization>, users: map<Id, User>) {
    (forall id :: id in organizations ==> organizations[id].id == id)
    && (forall a, b :: a in organizations && b in organizations && organizations[a].name == organizations[b].name ==> a == b)
    && (forall id :: id in organizations && organizations[id].adminId.Some? ==> organizations[id].adminId.value in users)
    && (forall id :: id in organizations ==> organizations[id].userIds <= users.Keys)
  }

  /** Projects are stored under their id; manager, organisation and assigned users exist. */
  predicate ProjectsOk(projects: map<Id, Project>, users: map<Id, User>, organizations: map<Id, Organization>) {
    (forall id :: id in projects ==> projects[id].id == id)
    && (forall id :: id in projects ==> projects[id].managerId in users)
    && (forall id :: id in projects && projects[id].organizationId.Some? ==> projects[id].organizationId.value in organizations)
    && (forall id :: id in projects ==> projects[id].assignedUserIds <= users.Keys)
  }

  /** The developers assigned to a bug exist and are listed once each. */
  predicate AssigneesOk(b: Bug, users: map<Id, User>) {
    Distinct(b.assignedIds) && forall i :: 0 <= i < |b.assignedIds| ==> b.assignedIds[i] in users
  }

  /** Bugs are stored under their id; project, reporter and assignees exist. */
  predicate BugsOk(bugs: map<Id, Bug>, projects: map<Id, Project>, users: map<Id, User>) {
    (forall id :: id in bugs ==> bugs[id].id == id)
    && (forall id :: id in bugs ==> bugs[id].projectId in projects && bugs[id].reportedById in users)
    && (forall id :: id in bugs ==> AssigneesOk(bugs[id], users))
  }

  /** Comments are stored under their id; bug and author exist. */
  predicate CommentsOk(comments: map<Id, Comment>, bugs: map<Id, Bug>, users: map<Id, User>) {
    (forall id :: id in comments ==> comments[id].id == id)
    && (forall id :: id in comments ==> comments[id].bugId in bugs && comments[id].authorId in users)
  }

  /** Notification ids are the identity column: every stored id is below the next one. */
  predicate NotificationsOk(notifications: map<nat, UserNotification>, nextId: nat) {
    forall id :: id in notifications ==> notifications[id].id == id && id < nextId
  }

  /** Storing a bug whose references exist keeps the bug and comment tables consistent. */
  lemma {:induction false} SaveBugKeepsIntegrity(bugs: map<Id, Bug>, projects: map<Id, Project>, users: map<Id, User>,
                                                 comments: map<Id, Comment>, b: Bug)
    requires BugsOk(bugs, projects, users) && CommentsOk(comments, bugs, users)
    requires b.projectId in projects && b.reportedById in users && AssigneesOk(b, users)
    ensures BugsOk(bugs[b.id := b], projects, users) && CommentsOk(comments, bugs[b.id := b], users)
  {
  }

  /** Storing a comment whose bug and author exist keeps the comment table consistent. */
  lemma {:induction false} SaveCommentKeepsIntegrity(comments: map<Id, Comment>, bugs: map<Id, Bug>, users: map<Id, User>, c: Comment)
    requires CommentsOk(comments, bugs, users)
    requires c.bugId in bugs && c.authorId in users
    ensures CommentsOk(comments[c.id := c], bugs, users)
  {
  }

  /** Replacing an organisation by one with the same id, name and admin and existing members keeps the tables consistent. */
  lemma {:induction false} ReplaceOrganizationKeepsIntegrity(organizations: map<Id, Organization>, users: map<Id, User>,
                                                             projects: map<Id, Project>, o: Organization)
    requires OrganizationsOk(organizations, users) && ProjectsOk(projects, users, organizations)
    requires o.id in organizations && o.name == organizations[o.id].name && o.adminId == organizations[o.id].adminId
    requires o.userIds <= users.Keys
    ensures OrganizationsOk(organizations[o.id := o], users) && ProjectsOk(projects, users, organizations[o.id := o])
  {
    assert organizations[o.id := o].Keys == organizations.Keys;
  }

  /** Registering a user under a new id and a free email keeps the user table consistent. */
  lemma {:induction false} AddUserKeepsUsersOk(users: map<Id, User>, u: User)
    requires UsersOk(users) && u.id !in users && !EmailTaken(users, u.email)
    ensures UsersOk(users[u.id := u])
  {
  }

  /** Tables that refer to users only through their ids stay consistent when a user is added. */
  lemma {:induction false} AddUserKeepsReferences(users: map<Id, User>, organizations: map<Id, Organization>, projects: map<Id, Project>,
                                                  bugs: map<Id, Bug>, comments: map<Id, Comment>, u: User)
    requires OrganizationsOk(organizations, users) && ProjectsOk(projects, users, organizations)
    requires BugsOk(bugs, projects, users) && CommentsOk(comments, bugs, users)
    ensures OrganizationsOk(organizations, users[u.id := u]) && ProjectsOk(projects, users[u.id := u], organizations)
    ensures BugsOk(bugs, projects, users[u.id := u]) && CommentsOk(comments, bugs, users[u.id := u])
  {
    var users' := users[u.id := u];
    assert users.Keys <= users'.Keys;
    forall id | id in bugs ensures AssigneesOk(bugs[id], users') {
      assert AssigneesOk(bugs[id], users);
    }
  }

  // ---------------------------------------------------------------------
  // repository lookups
  // ---------------------------------------------------------------------

  /** `existsByEmail`: the email occurs in the table's email column. */
  predicate EmailTaken(users: map<Id, User>, email: string): (b: bool)
    ensures b <==> email in (set id | id in users :: users[id].email)
  {
    exists id :: id in users && users[id].email == email
  }

  /** `findByEmail`: the one user with that email, if any. */
  function FindByEmail(users: map<Id, User>, email: string): (r: Option<User>)
    requires UsersOk(users)
    ensures r.Some? ==> r.value.id in users && users[r.value.id] == r.value && r.value.email == email
    ensures r.None? <==> !EmailTaken(users, email)
  {
    if EmailTaken(users, email) then
      var id :| id in users && users[id].email == email;
      Some(users[id])
    else None
  }

  /** A stored user is found by their email. */
  lemma {:induction false} FindByEmailOfStored(users: map<Id, User>, u: User)
    requires UsersOk(users) && u.id in users && users[u.id] == u
    ensures FindByEmail(users, u.email) == Some(u)
  {
    assert EmailTaken(users, u.email);
    var found := FindByEmail(users, u.email).value;
    assert users[found.id].email == users[u.id].email;
  }

  /** `existsByName` on organisations: the name occurs in the table's name column. */
  predicate OrganizationNameTaken(organizations: map<Id, Organization>, name: string): (b: bool)
    ensures b <==> name in (set id | id in organizations :: organizations[id].name)
  {
    exists id :: id in organizations && organizations[id].name == name
  }

  /** `findAllById(ids)`: the ids that name a stored row, once each; request order stands for the database's row order. */
  function FindAllById<T>(table: map<Id, T>, ids: seq<Id>): (r: seq<Id>)
    ensures Distinct(r)
    ensures forall i :: 0 <= i < |r| ==> r[i] in table
    ensures forall id :: id in r <==> id in ids && id in table
  {
    Dedup(FoundIds(table, ids))
  }

  function FoundIds<T>(table: map<Id, T>, ids: seq<Id>): (r: seq<Id>)
    ensures forall id :: id in r <==> id in ids && id in table
  {
    if ids == [] then []
    else
      var rest := FoundIds(table, ids[..|ids| - 1]);
      assert forall id :: id in ids <==> id in ids[..|ids| - 1] || id == ids[|ids| - 1];
      if ids[|ids| - 1] in table then rest + [ids[|ids| - 1]] else rest
  }

  // ---------------------------------------------------------------------
  // the inverse sides of the relationships
  // ---------------------------------------------------------------------

  /** `user.getManagedProjects()` (mappedBy projectManager). */
  function ManagedProjects(projects: map<Id, Project>, userId: Id): (r: set<Id>)
    ensures forall p :: p in r <==> p in projects && projects[p].managerId == userId
  {
    set p | p in projects && projects[p].managerId == userId
  }

  /** `user.getAssignedProjects()` (mappedBy assignedUsers). */
  function AssignedProjects(projects: map<Id, Project>, userId: Id): (r: set<Id>)
    ensures forall p :: p in r <==> p in projects && userId in projects[p].assignedUserIds
  {
    set p | p in projects && userId in projects[p].assignedUserIds
  }

  /** `user.getOrganizations()` (mappedBy users). */
  function OrganizationsOf(organizations: map<Id, Organization>, userId: Id): (r: set<Id>)
    ensures forall o :: o in r <==> o in organizations && userId in organizations[o].userIds
  {
    set o | o in organizations && userId in organizations[o].userIds
  }

  /** `organization.getProjects()` (mappedBy organization). */
  function ProjectsOf(projects: map<Id, Project>, organizationId: Id): (r: set<Id>)
    ensures forall p :: p in r <==> p in projects && projects[p].organizationId == Some(organizationId)
  {
    set p | p in projects && projects[p].organizationId == Some(organizationId)
  }

  /** `user.getAssignedBugs()` (mappedBy assignedDeveloper). */
  function AssignedBugs(bugs: map<Id, Bug>, userId: Id): (r: set<Id>)
    ensures forall b :: b in r <==> b in bugs && userId in bugs[b].assignedIds
  {
    set b | b in bugs && userId in bugs[b].assignedIds
  }

  // ---------------------------------------------------------------------
  // the store
  // ---------------------------------------------------------------------

  class Store {
    var users: map<Id, User>
    var projects: map<Id, Project>
    var organizations: map<Id, Organization>
    var bugs: map<Id, Bug>
    var comments: map<Id, Comment>
    /** The Elasticsearch index of bug documents, by bug id. */
    var documents: map<Id, BugDocument>
    var notifications: map<nat, UserNotification>
    /** The next value of the notification identity column. */
    var nextNotificationId: nat
    var messages: seq<ChatMessage>
    /** Everything published so far, oldest first. */
    var outbox: seq<Event>

    ghost predicate Valid()
      reads this`users, this`organizations, this`projects, this`bugs, this`comments
      reads this`notifications, this`nextNotificationId
    {
      UsersOk(users)
      && OrganizationsOk(organizations, users)
      && ProjectsOk(projects, users, organizations)
      && BugsOk(bugs, projects, users)
      && CommentsOk(comments, bugs, users)
      && NotificationsOk(notifications, nextNotificationId)
    }

    /** `userNotificationRepository.save` of a new row: it takes the next identity value. */
    method SaveNotification(n: UserNotification)
      requires NotificationsOk(notifications, nextNotificationId) && n.id == nextNotificationId
      modifies this`notifications, this`nextNotificationId
      ensures NotificationsOk(notifications, nextNotificationId)
      ensures notifications == old(notifications)[n.id := n]
      ensures nextNotificationId == old(nextNotificationId) + 1
    {
      notifications := notifications[n.id := n];
      nextNotificationId := nextNotificationId + 1;
    }

    constructor ()
      ensures Valid()
      ensures users == map[] && projects == map[] && organizations == map[] && bugs == map[]
      ensures comments == map[] && documents == map[] && notifications == map[]
      ensures messages == [] && outbox == []
    {
      users := map[];
      projects := map[];
      organizations := map[];
      bugs := map[];
      comments := map[];
      documents := map[];
      notifications := map[];
      nextNotificationId := 1;
      messages := [];
      outbox := [];
    }
  }
}
