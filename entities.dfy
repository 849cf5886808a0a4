/**
 * The enumerations and persistent entities of the bug tracker, as values.
 * Relationships are held by id on their owning side (the side with the join
 * column or join table); the inverse collections (a user's managed,
 * assigned and organisation sets, an organisation's projects) are derived
 * from the tables in module Db.
 */
module Entities {

  import opened Base

  /** Entity ids are UUID strings. */
  type Id = string

  datatype UserRole = Admin | ProjectManager | Developer | Tester

  /**
   * BugStatus. The enum file declares NEW, ASSIGNED, IN_PROGRESS, RESOLVED,
   * TESTING, CLOSED and REOPENED, but the assignment operation stores OPEN,
   * so OPEN is included here.
   */
  datatype BugStatus = New | Assigned | Open | InProgress | Resolved | Testing | Closed | Reopened

  /** `BugStatus.values()`, one entry per constant. */
  const AllStatuses: seq<BugStatus> := [New, Assigned, Open, InProgress, Resolved, Testing, Closed, Reopened]

  function StatusName(s: BugStatus): string {
    match s
    case New => "NEW"
    case Assigned => "ASSIGNED"
    case Open => "OPEN"
    case InProgress => "IN_PROGRESS"
    case Resolved => "RESOLVED"
    case Testing => "TESTING"
    case Closed => "CLOSED"
    case Reopened => "REOPENED"
  }

  /** `BugStatus.valueOf(name)`; None where Java throws IllegalArgumentException. */
  function ParseStatus(name: string): (r: Option<BugStatus>)
    ensures r.Some? ==> StatusName(r.value) == name
    ensures r.None? ==> forall s: BugStatus :: StatusName(s) != name
  {
    if name == "NEW" then Some(New)
    else if name == "ASSIGNED" then Some(Assigned)
    else if name == "OPEN" then Some(Open)
    else if name == "IN_PROGRESS" then Some(InProgress)
    else if name == "RESOLVED" then Some(Resolved)
    else if name == "TESTING" then Some(Testing)
    else if name == "CLOSED" then Some(Closed)
    else if name == "REOPENED" then Some(Reopened)
    else None
  }

  datatype BugSeverity = Low | Medium | High | Critical

  datatype BugType = Frontend | Backend | Integration | Performance | Security | Other

  function BugTypeName(t: BugType): string {
    match t
    case Frontend => "FRONTEND"
    case Backend => "BACKEND"
    case Integration => "INTEGRATION"
    case Performance => "PERFORMANCE"
    case Security => "SECURITY"
    case Other => "OTHER"
  }

  /** `BugType.valueOf(name)`. */
  function ParseBugType(name: string): (r: Option<BugType>)
    ensures r.Some? ==> BugTypeName(r.value) == name
    ensures r.None? ==> forall t: BugType :: BugTypeName(t) != name
  {
    if name == "FRONTEND" then Some(BugType.Frontend)
    else if name == "BACKEND" then Some(BugType.Backend)
    else if name == "INTEGRATION" then Some(Integration)
    else if name == "PERFORMANCE" then Some(Performance)
    else if name == "SECURITY" then Some(Security)
    else if name == "OTHER" then Some(BugType.Other)
    else None
  }

  datatype DeveloperType = Backend | Frontend | FullStack | Other

  function DeveloperTypeName(t: DeveloperType): string {
    match t
    case Backend => "BACKEND"
    case Frontend => "FRONTEND"
    case FullStack => "FULL_STACK"
    case Other => "OTHER"
  }

  /** `DeveloperType.valueOf(name)`. */
  function ParseDeveloperType(name: string): (r: Option<DeveloperType>)
    ensures r.Some? ==> DeveloperTypeName(r.value) == name
    ensures r.None? ==> forall t: DeveloperType :: DeveloperTypeName(t) != name
  {
    if name == "BACKEND" then Some(DeveloperType.Backend)
    else if name == "FRONTEND" then Some(DeveloperType.Frontend)
    else if name == "FULL_STACK" then Some(FullStack)
    else if name == "OTHER" then Some(DeveloperType.Other)
    else None
  }

  /**
   * ProjectStatus. Only its constant ACTIVE is used by the services; the
   * enum's other constants are carried by name.
   */
  datatype ProjectStatus = Active | Named(name: string)

  datatype MessageType = Chat | Join | Leave | Typing

  datatype NotificationType = CommentAdded

  datatype ParticipantAction = Join | Leave

  // ---------------------------------------------------------------------
  // entities
  // ---------------------------------------------------------------------

  /**
   * A user; the names and the role may be missing (null columns), so that
   * the services' fall-through branches exist.
   */
  datatype User = User(
    id: Id,
    email: string,
    firstName: Option<string>,
    lastName: Option<string>,
    password: string,
    role: Option<UserRole>,
    developerType: Option<DeveloperType>,
    isActive: bool)

  datatype Project = Project(
    id: Id,
    name: string,
    description: string,
    status: ProjectStatus,
    organizationId: Option<Id>,
    managerId: Id,
    assignedUserIds: set<Id>)

  datatype Organization = Organization(
    id: Id,
    name: string,
    description: string,
    adminId: Option<Id>,
    userIds: set<Id>)

  /**
   * A bug. The assigned developers are a set in the entity; they are kept
   * here as a list without repetitions, in the set's iteration order, since
   * the search projection joins them in that order. The required developer
   * types are commented out of the entity yet read and written by the
   * service; they are a set that starts empty.
   */
  datatype Bug = Bug(
    id: Id,
    title: string,
    description: string,
    status: BugStatus,
    severity: BugSeverity,
    projectId: Id,
    assignedIds: seq<Id>,
    reportedById: Id,
    bugType: Option<BugType>,
    expectedTimeHours: Option<int>,
    actualTimeHours: Option<int>,
    requiredDeveloperTypes: set<DeveloperType>)

  datatype Comment = Comment(id: Id, content: string, bugId: Id, authorId: Id)

  /** A value of a notification's metadata map (`Map<String, Object>`); null values are None. */
  datatype MetaValue = Str(s: string) | Number(n: int) | Flag(b: bool)

  datatype UserNotification = UserNotification(
    id: nat,
    userId: string,
    notificationType: NotificationType,
    title: string,
    content: string,
    read: bool,
    metadata: map<string, Option<string>>)

  datatype OrganizationRef = OrganizationRef(id: Id, name: string)

  /** The denormalised Elasticsearch document of a bug. */
  datatype BugDocument = BugDocument(
    id: Id,
    title: string,
    description: string,
    status: BugStatus,
    severity: BugSeverity,
    projectId: Id,
    projectName: string,
    assignedDeveloperId: Option<string>,
    assignedDeveloperEmail: Option<string>,
    reportedById: Option<Id>,
    organization: Option<OrganizationRef>,
    bugType: Option<BugType>,
    expectedTimeHours: Option<int>,
    actualTimeHours: Option<int>)

  // ---------------------------------------------------------------------
  // messages that leave the service (queues, topics, sockets)
  // ---------------------------------------------------------------------

  datatype InAppDetails = InAppDetails(deepLink: string, iconUrl: string)

  datatype NotificationMessage = NotificationMessage(
    notificationType: NotificationType,
    title: string,
    content: string,
    metadata: Option<map<string, Option<MetaValue>>>,
    recipients: seq<string>,
    inAppDetails: InAppDetails)

  /** A snapshot of a chat message as serialised onto a topic. */
  datatype ChatMessageData = ChatMessageData(
    content: Option<string>,
    bugId: Option<Id>,
    senderId: Option<Id>,
    recipientId: Option<Id>,
    messageType: MessageType,
    readBy: Option<set<string>>)

  datatype ParticipantsUpdate = ParticipantsUpdate(
    bugId: Id,
    participants: seq<string>,
    username: string,
    action: ParticipantAction)

  /** The web-socket payload pushed for a saved in-app notification. */
  datatype NotificationPayload = NotificationPayload(
    id: nat,
    notificationType: NotificationType,
    title: string,
    content: string,
    isRead: bool,
    metadata: map<string, Option<string>>)

  /** Everything the services publish, in order. */
  datatype Event =
    | NotificationQueued(message: NotificationMessage)           // RabbitMQ notification exchange
    | ChatPublished(chat: ChatMessageData)                       // topic "chat-messages"
    | TypingPublished(typing: ChatMessageData)                   // topic "typing-notifications"
    | ParticipantsPublished(update: ParticipantsUpdate)          // topic "participants-updates"
    | ReadReceiptsPublished(receipts: seq<ChatMessageData>)      // topic "read-receipts"
    | NotificationPushed(userId: string, payload: NotificationPayload)  // user web socket
}
