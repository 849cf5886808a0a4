# Bugwise service layer in Dafny

Bugwise is a Spring bug tracker. Organisations hold members and projects. Projects have a manager and assigned users. Bugs belong to a project, have a reporter, assigned developers and a status workflow. Comments on a bug notify the people working on it. Each bug has a chat with live participants and read receipts. In-app notifications are stored once per recipient. An AI assistant's replies are parsed into a bug type, required developer types, a time estimate and suggested developers. A global handler turns every failure into an HTTP status and body.

This project models the business rules of that service layer and proves properties about them:

- **Store.** The persistent tables are maps from id to entity. They are held by the class `Db.Store`, with an append-only `outbox` of everything published (queues, Kafka topics, web-socket pushes). `Store.Valid` states referential integrity, unique emails and unique organisation names. Every write operation preserves it.
- **Write operations** are methods that change only what their `modifies` clause names. Each one returns `Result<T>`, whose `Error` cases follow the exceptions the code throws:
  - `NoSuchElementException` / `ResourceNotFoundException`;
  - `ValidationException` with its field map;
  - `UnauthorizedAccessException`;
  - `IllegalArgumentException`;
  - authentication failures;
  - plain `RuntimeException`. A null dereference is modelled as `Runtime("")`, and the failed `(Set<User>)` cast in `assignBugToDevelopers` as `Runtime(CastFailure)`.
- **Transactions.** On every error path the tables are left as they were, as the `@Transactional` services leave them.
- **Read paths and JPQL queries** are functions over the table values.
- **Java String semantics.** The services rely on `trim`, `split`, `Collectors.joining`, `Integer.parseInt`, `Integer.toString`, ASCII case mapping and SQL `LIKE`. These are written out in module `Text` and proved about there, for ASCII text: `parseInt` accepts only the digits `0`-`9`, and `LIKE` has no escape character.
- **Chat state.** The two chat services keep in-memory state, so they are classes: `Chat.ChatService` holds the participant lists of `activeBugParticipants`, and `ChatParticipants.ChatParticipantService` holds the participant sets. A chat message is a small class (`ChatMessages.ChatMessage`) because `markAsRead` changes it in place.
- **Parameters.** The password encoder, the token provider, the repository's active-user counts, the Elasticsearch hits and the LLM's replies are parameters of the operations that use them.

Where the code and its documentation disagree, the model follows the code:

- **OPEN status.** `assignBugToDevelopers` sets the status OPEN, which the `BugStatus` enum file does not declare, so the model's `BugStatus` includes `Open`.
- **Assigned-developer permission.** The update-permission check asks a set of users whether it contains a user id. That never holds, so an assigned developer is never allowed to update a bug on that ground alone.
- **createBug fields.** `createBug` copies only title, description and severity, and sets status NEW and the reporter. It does not copy the bug type, the expected time or the required developer types.
- **Required developer types.** They are commented out of the entity but read and written by the service. They are modelled as a set-valued bug field, and as an optional field of the update request.
- **Assignment cast.** `assignBugToDevelopers` casts the `List` that `findAllById` returns to `Set<User>`. That cast always throws, so the call never assigns anyone. The code as written and the evidently intended version are both modelled; see "## Findings".
- **Undeclared repository methods.** The services call repository methods that the repository interfaces do not declare: `findAllByIdIn`, `findByAssignedProjectsIdAndRole`, `findByOrganizationsIdAndRole`, `countActiveUsersByOrganizationsAndRole`, `countActiveUsersByProjectsAndRole` on users, and `findByOrganizationIdIn`, `findByAssignedBugsDeveloperId` on projects. The model gives each the meaning its derived-query name states (`ProjectService.FindAllByIdIn`, `UserService.FindDevelopers`, `AIAnalysis.ProjectDevelopers`, `ProjectService.ProjectsInOrganizations`, `ProjectService.ProjectsWithAssignedBugs`); the two counts are parameters.
- **Stats shape.** The per-project statistics have the shape the service builds: name, organisation id, and a count per status name. The shape of the DTO class differs.
- **Organisation update.** `updateOrganization` saves a fresh organisation rather than the one with the given id, so the existing organisation is never changed.
- **Unread-message query.** It is declared as a native query but written in JPQL, so the database rejects it and `markMessagesAsRead` fails on every call with "Failed to mark messages as read". The code as written and the evidently intended JPQL meaning (messages of the bug, sent by the user, not yet read by them) are both modelled; see "## Findings".

## Model

| member | source | states |
|---|---|---|
| Entities.ParseStatus | src/main/java/com/swayam/bugwise/enums/BugStatus.java:3-11 | `BugStatus.valueOf`: a result names the constant it was given; no result exactly when no constant has that name |
| Entities.ParseBugType | src/main/java/com/swayam/bugwise/service/AIAnalysisService.java:164 | `BugType.valueOf`: a result has the given name; no result exactly when no constant has it |
| Entities.ParseDeveloperType | src/main/java/com/swayam/bugwise/service/AIAnalysisService.java:182 | `DeveloperType.valueOf`: a result has the given name; no result exactly when no constant has it |
| Text.Trim | src/main/java/com/swayam/bugwise/service/AIAnalysisService.java:164 | `String.trim`: the result is a contiguous slice whose ends are not whitespace, and only characters up to U+0020 were cut |
| Text.TrimLeft | src/main/java/com/swayam/bugwise/service/AIAnalysisService.java:164 | the leading part `trim` cuts: a suffix of the string, all of it whitespace, leaving a non-whitespace first character |
| Text.TrimRight | src/main/java/com/swayam/bugwise/service/AIAnalysisService.java:164 | the trailing part `trim` cuts: a prefix of the string is kept, what is cut is all whitespace, leaving a non-whitespace last character |
| Text.TrimIdentity | src/main/java/com/swayam/bugwise/service/AIAnalysisService.java:228 | a string that neither starts nor ends with whitespace is its own trimmed form |
| Text.ToUpper | src/main/java/com/swayam/bugwise/service/AIAnalysisService.java:164 | `toUpperCase`: same length, each character mapped to its ASCII upper case |
| Text.ToLower | src/main/java/com/swayam/bugwise/repository/jpa/BugRepository.java:39-40 | SQL `LOWER`: same length, each character mapped to its ASCII lower case |
| Text.Join | src/main/java/com/swayam/bugwise/service/BugService.java:122-125 | `Collectors.joining`: no pieces give the empty string, one piece gives that piece |
| Text.IntToString | src/main/java/com/swayam/bugwise/service/AIAnalysisService.java:234-237 | `%d` rendering of an int: never empty |
| Text.TrimPadded | src/main/java/com/swayam/bugwise/service/AIAnalysisService.java:204 | whitespace padding around a word is exactly what `trim` removes |
| Text.UpperOfLowerName | src/main/java/com/swayam/bugwise/service/AIAnalysisService.java:164 | upper-casing a lower-cased enum constant name gives the name back |
| Text.JavaSplit | src/main/java/com/swayam/bugwise/service/AIAnalysisService.java:178 | `String.split` on one character: no piece contains the separator; without the separator the whole string is the one piece; otherwise the pieces are those between separators with only trailing empty ones dropped, so the last piece is never empty |
| Text.SplitJoinRoundTrip | src/main/java/com/swayam/bugwise/service/AIAnalysisService.java:255 | splitting a comma-joined list of separator-free pieces gives the pieces back |
| Text.ParseInt | src/main/java/com/swayam/bugwise/service/AIAnalysisService.java:204 | `Integer.parseInt`: a result lies in the 32-bit range and comes from a string starting with a sign or digit |
| Text.NatToString | src/main/java/com/swayam/bugwise/service/AIAnalysisService.java:237 | decimal rendering: decimal digits only, no leading zero |
| Text.ParseIntOfIntToString | src/main/java/com/swayam/bugwise/service/AIAnalysisService.java:204 | `parseInt(Integer.toString(n)) == n` for every Java int |
| Text.LikeContains | src/main/java/com/swayam/bugwise/repository/jpa/BugRepository.java:39-40 | for a term without wildcards, `s LIKE '%' + t + '%'` holds exactly when `s` contains `t` |
| Text.LikePrefix | src/main/java/com/swayam/bugwise/repository/jpa/BugRepository.java:39-40 | for a literal `t`, `s LIKE t + '%'` holds exactly when `t` is a prefix of `s` |
| Db.EmailTaken | src/main/java/com/swayam/bugwise/repository/jpa/UserRepository.java:18 | `existsByEmail`: the email occurs in the users' email column |
| Db.OrganizationNameTaken | src/main/java/com/swayam/bugwise/repository/jpa/OrganizationRepository.java:12 | `existsByName`: the name occurs in the organisations' name column |
| Db.FindByEmail | src/main/java/com/swayam/bugwise/repository/jpa/UserRepository.java:16 | `findByEmail`: a found user is the stored user with that email; nothing is found exactly when the email is not registered |
| Db.FindByEmailOfStored | src/main/java/com/swayam/bugwise/repository/jpa/UserRepository.java:16 | every stored user is found again by their email (emails are unique) |
| Db.FindAllById | src/main/java/com/swayam/bugwise/service/OrganizationService.java:111-113 | `findAllById`: exactly the requested ids that name a row, each once |
| Base.Dedup | src/main/java/com/swayam/bugwise/service/OrganizationService.java:111-113 | keeps exactly the elements of the list, each once |
| Db.Store.constructor | src/main/java/com/swayam/bugwise/entity/User.java:34 | the empty database satisfies every integrity rule and holds nothing |
| Db.ManagedProjects | src/main/java/com/swayam/bugwise/entity/User.java:49 | a user's managed projects are exactly the projects naming them as manager |
| Db.AssignedProjects | src/main/java/com/swayam/bugwise/entity/User.java:53 | a user's assigned projects are exactly the projects whose assigned set holds them |
| Db.AssignedBugs | src/main/java/com/swayam/bugwise/entity/User.java:57 | a user's assigned bugs are exactly the bugs listing them as assignee |
| Db.OrganizationsOf | src/main/java/com/swayam/bugwise/entity/User.java:61 | a user's organisations are exactly those whose member set holds them |
| Db.ProjectsOf | src/main/java/com/swayam/bugwise/entity/Organization.java:27 | an organisation's projects are exactly the projects referring to it |
| Db.SaveBugKeepsIntegrity | src/main/java/com/swayam/bugwise/entity/Bug.java:44-58 | saving a bug whose project, reporter and assignees exist keeps the bug and comment tables consistent |
| Db.SaveCommentKeepsIntegrity | src/main/java/com/swayam/bugwise/entity/Comment.java:21-26 | saving a comment whose bug and author exist keeps the comment table consistent |
| Db.ReplaceOrganizationKeepsIntegrity | src/main/java/com/swayam/bugwise/entity/Organization.java:21-38 | replacing an organisation by one with the same name and admin and existing members keeps the tables consistent |
| Db.AddUserKeepsUsersOk | src/main/java/com/swayam/bugwise/entity/User.java:34 | adding a user with a fresh id and a free email keeps the emails unique |
| Db.AddUserKeepsReferences | src/main/java/com/swayam/bugwise/entity/User.java:49-61 | adding a user breaks no reference held by the other tables |
| Db.Store.SaveNotification | src/main/java/com/swayam/bugwise/utils/NotificationConsumer.java:45 | saving a new notification stores it under the next identity value and advances that value; earlier rows stay |
| BugRepository.FindActiveByProjectAndSeverity | src/main/java/com/swayam/bugwise/repository/jpa/BugRepository.java:21-30 | exactly the bugs of the project with the severity whose status is not excluded |
| BugRepository.GetBugStatisticsByProject | src/main/java/com/swayam/bugwise/repository/jpa/BugRepository.java:32-35 | one entry per status among the project's bugs, counting exactly the project's bugs with it |
| BugRepository.FindBugStatistics | src/main/java/com/swayam/bugwise/repository/jpa/BugRepository.java:47-48 | one entry per status in the table, counting exactly the bugs with it |
| BugRepository.FindBugStatisticsByProjectIdIn | src/main/java/com/swayam/bugwise/repository/jpa/BugRepository.java:50-51 | one entry per status among the listed projects' bugs, counting exactly those bugs with it |
| BugRepository.InProjects | src/main/java/com/swayam/bugwise/repository/jpa/BugRepository.java:50-51 | `WHERE b.project.id IN :projectIds`: exactly the rows of the listed projects, unchanged |
| BugRepository.GroupByStatus | src/main/java/com/swayam/bugwise/repository/jpa/BugRepository.java:32-35 | `GROUP BY b.status`: one entry per status present, each holding the positive number of rows with it |
| BugRepository.CountOfGrouping | src/main/java/com/swayam/bugwise/repository/jpa/BugRepository.java:47-48 | the grouping's count for any status, absent or not, is the number of rows with that status |
| BugRepository.TotalOfGrouping | src/main/java/com/swayam/bugwise/repository/jpa/BugRepository.java:50-51 | adding up the grouped counts of distinct statuses counts the rows having one of them |
| BugRepository.GroupByStatusTotal | src/main/java/com/swayam/bugwise/repository/jpa/BugRepository.java:32-35 | the per-status counts add up to the number of rows grouped |
| BugRepository.FindByProjectIdIn | src/main/java/com/swayam/bugwise/repository/jpa/BugRepository.java:60-65 | bugs of a listed project, and only those whose project has an organisation (the inner join) |
| BugRepository.FindByProjectOrganizationIdIn | src/main/java/com/swayam/bugwise/repository/jpa/BugRepository.java:53-58 | exactly the bugs whose project belongs to one of the organisations |
| BugRepository.FindByIdIn | src/main/java/com/swayam/bugwise/repository/jpa/BugRepository.java:67 | exactly the stored bugs whose id is listed |
| BugRepository.FindByProjectIdAndAssignedDeveloperId | src/main/java/com/swayam/bugwise/repository/jpa/BugRepository.java:69-74 | exactly the bugs of the project whose assignees include the developer |
| BugRepository.SearchBugsInProject | src/main/java/com/swayam/bugwise/repository/jpa/BugRepository.java:37-45 | exactly the project's bugs whose lower-cased title or description matches the lower-cased `%term%` pattern |
| BugRepository.SearchIsSubstringSearch | src/main/java/com/swayam/bugwise/repository/jpa/BugRepository.java:37-45 | for a term without wildcards the search is a case-insensitive substring search; the empty term returns every bug of the project |
| BugRepository.ProjectAndOrganizationFiltersDiffer | src/main/java/com/swayam/bugwise/repository/jpa/BugRepository.java:53-65 | both filters find a bug by its own project or organisation; the project filter ignores organisation ids and the organisation filter ignores project ids |
| BugService.AssigneeEmails | src/main/java/com/swayam/bugwise/service/BugService.java:124 | the assignees' emails, position by position in assignee order |
| BugService.IndexDocument | src/main/java/com/swayam/bugwise/service/BugService.java:107-139 | the search document copies the bug's fields and project name, comma-joins assignee ids and emails, and carries an organisation ref exactly when the project has an organisation |
| BugService.IndexedAssigneesRoundTrip | src/main/java/com/swayam/bugwise/service/BugService.java:123 | for comma-free ids, splitting the document's assignee field gives back exactly the bug's assignees |
| BugService.ValidateUserCanUpdateBug | src/main/java/com/swayam/bugwise/service/BugService.java:188-198 | permitted exactly for an ADMIN or for the project's own PROJECT_MANAGER; otherwise the permission Validation error |
| BugService.AssignedDeveloperCannotUpdate | src/main/java/com/swayam/bugwise/service/BugService.java:190-191 | an assigned developer is still refused, since the membership test never holds |
| BugService.ValidateStatusTransition | src/main/java/com/swayam/bugwise/service/BugService.java:206-210 | allowed exactly when the bug is not CLOSED or the target is REOPENED |
| BugService.ValidateUserCanCreateBug | src/main/java/com/swayam/bugwise/service/BugService.java:182-186 | allowed exactly for TESTER and DEVELOPER |
| BugService.ValidateDeveloperAssignment | src/main/java/com/swayam/bugwise/service/BugService.java:200-204 | allowed exactly for DEVELOPER |
| BugService.ApplyUpdate | src/main/java/com/swayam/bugwise/service/BugService.java:79-93 | title, description and severity are overwritten; bug type and expected time only when given; required types only when given and non-empty; every other field is kept |
| BugService.ApplyUpdateOfOwnValues | src/main/java/com/swayam/bugwise/service/BugService.java:79-93 | an update repeating the bug's own values leaves the bug unchanged |
| BugService.DevelopersOf | src/main/java/com/swayam/bugwise/service/BugService.java:146 | the users named by the found ids, in the same order |
| BugService.FirstUnskilled | src/main/java/com/swayam/bugwise/service/BugService.java:149-154 | nothing exactly when every developer's type is required; otherwise the position of the first developer, in list order, without one |
| BugService.FirstUnskilledAtUnique | src/main/java/com/swayam/bugwise/service/BugService.java:149-154 | the first unskilled position is unique, so the developer the check reports is determined |
| BugService.FindUnskilled | src/main/java/com/swayam/bugwise/service/BugService.java:149-154 | the forEach loop finds exactly the first unskilled position, or none |
| BugService.AssignAsWritten | src/main/java/com/swayam/bugwise/service/BugService.java:142-157 | never succeeds: the skill error of the first unskilled developer, and the cast failure once every found developer is skilled |
| BugService.AssignIntended | src/main/java/com/swayam/bugwise/service/BugService.java:142-157 | succeeds exactly when every found developer is skilled, with status OPEN; otherwise the skill error of the first unskilled one |
| BugService.IntendedAssignsSkilledRequested | src/main/java/com/swayam/bugwise/service/BugService.java:146-157 | after the intended assignment the assignees are exactly the requested ids naming a user, each once and each skilled, and only assignees and status change |
| BugService.AsWrittenFailsWhereIntendedAssigns | src/main/java/com/swayam/bugwise/service/BugService.java:149-157 | the code as written fails exactly as the intended version does, and throws the cast failure wherever the intended version assigns |
| BugService.CastFailsForSkilledDeveloper | src/main/java/com/swayam/bugwise/service/BugService.java:156 | a bug needing BACKEND and one BACKEND developer: the code as written fails with the cast, the intended version assigns that developer |
| BugService.SaveAndIndex | src/main/java/com/swayam/bugwise/service/BugService.java:68-69 | stores the bug and its search document under its id and keeps the store consistent |
| BugService.CreateBug | src/main/java/com/swayam/bugwise/service/BugService.java:52-71 | an unknown actor, then an unknown project, fails with NotFound and nothing is saved or indexed; it succeeds exactly when both exist, and then a NEW bug with the actor as reporter and the request's title, description, severity and project is stored and indexed |
| BugService.UpdateOutcome | src/main/java/com/swayam/bugwise/service/BugService.java:74-93 | an unknown bug, then an unknown user, is NotFound; a refused user gets the permission error; otherwise the overwrite rules' result |
| BugService.UpdateBug | src/main/java/com/swayam/bugwise/service/BugService.java:74-98 | answers the update outcome; on an error everything is unchanged; otherwise the stored bug becomes the new bug and is re-indexed |
| BugService.AssignBugToDevelopers | src/main/java/com/swayam/bugwise/service/BugService.java:142-162 | as written: an unknown bug is NotFound, otherwise the as-written outcome (a skill error or the cast failure); nothing is ever saved or re-indexed |
| BugService.AssignBugToDevelopersIntended | src/main/java/com/swayam/bugwise/service/BugService.java:142-162 | as intended: an unknown bug is NotFound; otherwise the intended outcome; on success the assignees are stored with status OPEN and the bug re-indexed, on failure nothing changes |
| BugService.UpdateBugStatus | src/main/java/com/swayam/bugwise/service/BugService.java:165-174 | leaving CLOSED for anything but REOPENED is a Validation error with no write; any other transition stores the new status and keeps every other field |
| BugService.FindActiveBugs | src/main/java/com/swayam/bugwise/service/BugService.java:216-220 | exactly the project's bugs of that severity whose status is neither CLOSED nor RESOLVED |
| BugService.GetBugsForUser | src/main/java/com/swayam/bugwise/service/BugService.java:223-262 | unknown email fails and a registered email always gets a result; an ADMIN sees the bugs of their organisations' projects; anyone else sees the bugs of the projects they are assigned to or manage; only projects with an organisation |
| BugService.GetBugStatisticsForUser | src/main/java/com/swayam/bugwise/service/BugService.java:264-278 | an ADMIN gets the grouping of all bugs, any other role the grouping over managed projects, no role "Invalid role" |
| BugService.UserStatisticsTotal | src/main/java/com/swayam/bugwise/service/BugService.java:264-278 | the statistics add up to all bugs for an ADMIN and to the managed projects' bugs otherwise |
| BugService.SearchBugsInProjectService | src/main/java/com/swayam/bugwise/service/BugService.java:280-309 | a term without hits returns nothing; otherwise the project's bugs, restricted to the hits and the named status; an unknown status name is an IllegalArgument error |
| BugService.GetAssignedBugsForDeveloperInProject | src/main/java/com/swayam/bugwise/service/BugService.java:361-383 | unknown user is NotFound; a user not assigned to the project gets a Validation error; otherwise exactly the project's bugs assigned to them, and the call fails exactly when that set is non-empty and the project has no organisation (the post-processing dereferences the missing organisation) |
| ProjectService.FindAllByIdIn | src/main/java/com/swayam/bugwise/service/ProjectService.java:99 | `findAllByIdIn`: exactly the listed ids that name a user |
| ProjectService.ValidateProjectManager | src/main/java/com/swayam/bugwise/service/ProjectService.java:86-91 | accepted exactly for a PROJECT_MANAGER |
| ProjectService.InitialAssignees | src/main/java/com/swayam/bugwise/service/ProjectService.java:58-61 | no assignees unless the id set is given and non-empty; then exactly the found users |
| ProjectService.CreateProject | src/main/java/com/swayam/bugwise/service/ProjectService.java:42-64 | unknown organisation or manager is NotFound, a non-manager a Validation error, none of them saving; it succeeds exactly when none of these holds, and then an ACTIVE project with the request's fields and initial assignees is stored |
| ProjectService.SaveAssigneesKeepsIntegrity | src/main/java/com/swayam/bugwise/service/ProjectService.java:102 | changing only a project's assigned users to existing ones keeps the tables consistent |
| ProjectService.AssignUsersToProject | src/main/java/com/swayam/bugwise/service/ProjectService.java:95-108 | the assigned set becomes the old set united with the found users; an unknown project is NotFound with no write, and any existing project succeeds |
| ProjectService.RemoveUsersFromProject | src/main/java/com/swayam/bugwise/service/ProjectService.java:147-159 | exactly the users with a listed id leave; the others remain; an unknown project is NotFound with no write, and any existing project succeeds |
| ProjectService.AssignThenRemove | src/main/java/com/swayam/bugwise/service/ProjectService.java:95-159 | assigning some ids and then removing the same ids leaves exactly the members that were not listed |
| ProjectService.ApplyProjectUpdate | src/main/java/com/swayam/bugwise/service/ProjectService.java:116-134 | name and description overwritten, status kept when absent, assignees replaced only when ids are given, id and organisation kept |
| ProjectService.UpdateProject | src/main/java/com/swayam/bugwise/service/ProjectService.java:112-143 | the manager is looked up and validated only when it changes, failing with NotFound or Validation and no write; otherwise the project becomes the update's result |
| ProjectService.ProjectsWithAssignedBugs | src/main/java/com/swayam/bugwise/service/ProjectService.java:243 | exactly the projects holding a bug assigned to the user |
| ProjectService.ProjectsInOrganizations | src/main/java/com/swayam/bugwise/service/ProjectService.java:238 | exactly the projects attached to one of the organisations |
| ProjectService.StatsScope | src/main/java/com/swayam/bugwise/service/ProjectService.java:234-245 | an ADMIN's scope is their organisations' projects, a PROJECT_MANAGER's the managed projects, anyone else's the projects holding their assigned bugs |
| ProjectService.StatusNameInjective | src/main/java/com/swayam/bugwise/enums/BugStatus.java:3-11 | distinct statuses have distinct names, so no count overwrites another |
| ProjectService.FillStatusCounts | src/main/java/com/swayam/bugwise/service/ProjectService.java:253-255 | the map has exactly one key per status name, holding the grouped count with zero for absent statuses |
| ProjectService.NamedTotalOfCounts | src/main/java/com/swayam/bugwise/service/ProjectService.java:251-255 | reading the filled counts by name gives the same totals as the grouping |
| ProjectService.DescribedCountsTotal | src/main/java/com/swayam/bugwise/service/ProjectService.java:247-261 | a project's status counts, zeroes included, add up to its number of bugs |
| ProjectService.StatsOfProject | src/main/java/com/swayam/bugwise/service/ProjectService.java:247-261 | the entry carries the project's name, organisation and a count for every status; a project without an organisation dereferences null |
| ProjectService.GetProjectStats | src/main/java/com/swayam/bugwise/service/ProjectService.java:228-263 | unknown email fails; otherwise exactly one entry per project in the role's scope, each describing that project |
| OrganizationService.SaveNewOrganizationKeepsIntegrity | src/main/java/com/swayam/bugwise/service/OrganizationService.java:42-49 | a new organisation with a free name and existing admin and members keeps the tables consistent |
| OrganizationService.CreateOrganization | src/main/java/com/swayam/bugwise/service/OrganizationService.java:37-50 | a taken name is the Validation error keyed "name" with no write; otherwise a new organisation with the caller as admin and exactly the caller as member is stored |
| OrganizationService.CreateOrganizationFromView | src/main/java/com/swayam/bugwise/service/OrganizationService.java:81-91 | the same name check; the new organisation has no admin and no members |
| OrganizationService.UpdateOrganization | src/main/java/com/swayam/bugwise/service/OrganizationService.java:95-105 | a taken name is rejected; otherwise a new organisation is saved and the one with the given id is left untouched |
| OrganizationService.IsAdmin | src/main/java/com/swayam/bugwise/entity/Organization.java:43-45 | true exactly when the user's id is the admin's; no result when there is no admin (null dereference) |
| OrganizationService.GetOrganization | src/main/java/com/swayam/bugwise/service/OrganizationService.java:53-62 | unknown id is NotFound; any user other than the admin is Unauthorized; the admin gets the organisation's name and description |
| OrganizationService.AdminReadsOwnOrganization | src/main/java/com/swayam/bugwise/service/OrganizationService.java:57 | the admin's read always succeeds |
| OrganizationService.SaveMembers | src/main/java/com/swayam/bugwise/service/OrganizationService.java:120 | replaces only the organisation's member set and keeps the store consistent |
| OrganizationService.AddUsersToOrganization | src/main/java/com/swayam/bugwise/service/OrganizationService.java:107-121 | unknown organisation or any unknown user id is NotFound with no change; otherwise the members become the union with the requested users |
| OrganizationService.AllFoundBySize | src/main/java/com/swayam/bugwise/service/OrganizationService.java:115 | the size comparison holds exactly when every requested id names a user |
| OrganizationService.RemoveUserFromOrganization | src/main/java/com/swayam/bugwise/service/OrganizationService.java:139-149 | removing the admin is Unauthorized with no change; otherwise exactly that user leaves the members |
| OrganizationService.AdminStaysMember | src/main/java/com/swayam/bugwise/service/OrganizationService.java:143-147 | an admin who is a member remains one after any permitted removal |
| OrganizationService.GetOrganizationStats | src/main/java/com/swayam/bugwise/service/OrganizationService.java:173-184 | one entry per organisation whose counts are the sizes of its project and member sets |
| OrganizationService.MemberCountBounded | src/main/java/com/swayam/bugwise/service/OrganizationService.java:181 | no organisation counts more members than there are users |
| OrganizationService.GetOrganizationsForUser | src/main/java/com/swayam/bugwise/service/OrganizationService.java:64-77 | unknown email fails and a registered email always gets a result; an ADMIN gets every organisation, anyone else exactly those they are a member of |
| CommentService.CommentRecipients | src/main/java/com/swayam/bugwise/service/CommentService.java:49-53 | the assigned developers' emails in order, then the reporter's: one more entry than assignees |
| CommentService.CommentNotification | src/main/java/com/swayam/bugwise/service/CommentService.java:55-65 | a COMMENT_ADDED message to exactly those recipients, with the bug id and author as metadata and a deep link to the bug |
| CommentService.SaveComment | src/main/java/com/swayam/bugwise/service/CommentService.java:69 | stores the comment under its id and keeps the store consistent |
| CommentService.CreateComment | src/main/java/com/swayam/bugwise/service/CommentService.java:40-70 | unknown bug or author fails with nothing queued or stored; otherwise the notification is queued and the comment by the author is stored |
| CommentService.EveryoneOnTheBugIsNotified | src/main/java/com/swayam/bugwise/service/CommentService.java:49-53 | the reporter and every assigned developer are among the recipients |
| CommentService.UpdateComment | src/main/java/com/swayam/bugwise/service/CommentService.java:86-100 | unknown comment is NotFound, a wrong bug IllegalArgument (checked first), a non-author a Validation error, all unchanged; otherwise only the content changes |
| UserService.SaveUserKeepsIntegrity | src/main/java/com/swayam/bugwise/service/UserService.java:104-114 | keeping one's email or moving to a free one keeps emails unique |
| UserService.UpdateUserDetails | src/main/java/com/swayam/bugwise/service/UserService.java:100-115 | a changed email that is taken is rejected with nothing saved; an unchanged email is not checked; names are always overwritten |
| UserService.FindDevelopers | src/main/java/com/swayam/bugwise/service/UserService.java:57-67 | a project id selects the project's DEVELOPERs, else an organisation id the organisation's, else nobody |
| UserService.ProjectTakesPrecedence | src/main/java/com/swayam/bugwise/service/UserService.java:59-62 | with a project id the organisation id is never consulted |
| UserService.AdministeredOrganizations | src/main/java/com/swayam/bugwise/service/UserService.java:138 | exactly the organisations the user administers |
| UserService.SumOverRemove | src/main/java/com/swayam/bugwise/service/UserService.java:139-149 | the accumulated sum does not depend on the order the organisations are visited in |
| UserService.SumAdministeredCounts | src/main/java/com/swayam/bugwise/service/UserService.java:139-149 | the loop yields the empty map without organisations, otherwise the PROJECT_MANAGER, DEVELOPER and TESTER sums over all of them |
| UserService.AddOrganizationCounts | src/main/java/com/swayam/bugwise/service/UserService.java:140-148 | one iteration turns the totals over the visited organisations into the totals including the next one |
| UserService.GetDescendantUserCount | src/main/java/com/swayam/bugwise/service/UserService.java:133-163 | an ADMIN gets the three role sums over administered organisations, a PROJECT_MANAGER the DEVELOPER and TESTER counts over managed projects, anyone else Unauthorized; never an ADMIN key |
| UserService.SumOverSingle | src/main/java/com/swayam/bugwise/service/UserService.java:139-149 | with one administered organisation the counts are that organisation's |
| AuthService.SignupRole | src/main/java/com/swayam/bugwise/service/AuthService.java:66-70 | the requested role, DEVELOPER when none is given |
| AuthService.Signup | src/main/java/com/swayam/bugwise/service/AuthService.java:58-80 | an email is refused exactly when registered, with nothing stored; otherwise an active user with the encoded password and the role is stored, found by email, and answered with a token, the email and the role |
| AuthService.RegisteredEmailIsTaken | src/main/java/com/swayam/bugwise/service/AuthService.java:59-61 | once a user is registered a second signup with that email is refused |
| ChatParticipants.Added | src/main/java/com/swayam/bugwise/service/ChatParticipantService.java:15-18 | the bug's set gains the user, created if missing; no other bug's entry changes |
| ChatParticipants.Removed | src/main/java/com/swayam/bugwise/service/ChatParticipantService.java:20-28 | the user leaves; an entry left empty is dropped; an unknown bug changes nothing |
| ChatParticipants.AddedKeepsNoEmptyEntries | src/main/java/com/swayam/bugwise/service/ChatParticipantService.java:15-18 | adding never leaves an empty entry |
| ChatParticipants.RemovedKeepsNoEmptyEntries | src/main/java/com/swayam/bugwise/service/ChatParticipantService.java:24-26 | removing never leaves an empty entry |
| ChatParticipants.AddIdempotent | src/main/java/com/swayam/bugwise/service/ChatParticipantService.java:16-17 | adding twice is adding once |
| ChatParticipants.AddThenRemove | src/main/java/com/swayam/bugwise/service/ChatParticipantService.java:15-28 | a newcomer who joins and leaves restores the registry exactly |
| ChatParticipants.ChatParticipantService.AddParticipant | src/main/java/com/swayam/bugwise/service/ChatParticipantService.java:15-18 | the registry becomes the added one and keeps no empty entries |
| ChatParticipants.ChatParticipantService.RemoveParticipant | src/main/java/com/swayam/bugwise/service/ChatParticipantService.java:20-28 | the registry becomes the removed one and keeps no empty entries |
| ChatParticipants.ChatParticipantService.GetCurrentParticipantsForBug | src/main/java/com/swayam/bugwise/service/ChatParticipantService.java:30-32 | the bug's participants, empty for an unknown bug |
| ChatMessages.ChatMessage.constructor | src/main/java/com/swayam/bugwise/entity/ChatMessage.java:46-52 | the field initialisers give type CHAT and an empty read-by set |
| ChatMessages.ChatMessage.Build | src/main/java/com/swayam/bugwise/entity/ChatMessage.java:20 | the builder leaves content and the read-by set null |
| ChatMessages.ChatMessage.CreateMessage | src/main/java/com/swayam/bugwise/entity/ChatMessage.java:64-73 | a fresh message with the given content, bug, sender and type and an empty read-by set |
| ChatMessages.ChatMessage.MarkAsRead | src/main/java/com/swayam/bugwise/entity/ChatMessage.java:57-62 | the readers become the earlier readers plus the user, a null set counting as empty |
| Chat.AddIfAbsent | src/main/java/com/swayam/bugwise/service/ChatService.java:90 | the element is present afterwards, appended only when absent, and no repetition is created |
| Chat.RemoveFirst | src/main/java/com/swayam/bugwise/service/ChatService.java:136 | `remove(Object)`: the first occurrence is dropped, a missing element changes nothing |
| Chat.RemoveFirstDistinct | src/main/java/com/swayam/bugwise/service/ChatService.java:136 | in a list without repetitions removal leaves exactly the other elements, still without repetitions |
| Chat.AfterJoin | src/main/java/com/swayam/bugwise/service/ChatService.java:86-90 | the bug's list exists and holds the email; other bugs' lists are untouched |
| Chat.AfterLeave | src/main/java/com/swayam/bugwise/service/ChatService.java:135-163 | the email is removed and an entry left empty is dropped |
| Chat.UpdateKeepsListsDistinct | src/main/java/com/swayam/bugwise/service/ChatService.java:40 | replacing a list by one without repetitions keeps all lists free of repetitions |
| Chat.JoinIdempotent | src/main/java/com/swayam/bugwise/service/ChatService.java:86-90 | joining twice is joining once |
| Chat.JoinThenLeave | src/main/java/com/swayam/bugwise/service/ChatService.java:84-169 | a newcomer who joins and leaves restores the participant map exactly |
| Chat.MarkedBy | src/main/java/com/swayam/bugwise/entity/ChatMessage.java:57-62 | marking adds exactly the reader and changes nothing else |
| Chat.MarkedByIdempotent | src/main/java/com/swayam/bugwise/entity/ChatMessage.java:61 | marking twice is marking once |
| Chat.ReceiptsOfSelection | src/main/java/com/swayam/bugwise/service/ChatService.java:205-214 | receipts are published exactly when some message is selected, and each carries the reader |
| Chat.Selected | src/main/java/com/swayam/bugwise/repository/jpa/ChatMessageRepository.java:15-19 | defines the intended meaning of `findUnreadMessagesByBugAndSender`: messages of the bug, sent by the user, whose read-by set lacks the user |
| Chat.NativeUnreadQuery | src/main/java/com/swayam/bugwise/repository/jpa/ChatMessageRepository.java:15-19 | the query as declared, native SQL over a table and paths that do not exist, fails for every input |
| Chat.MarkAsWritten | src/main/java/com/swayam/bugwise/service/ChatService.java:202-219 | `markMessagesAsRead` as written, on the stored messages: always the catch-all's "Failed to mark messages as read" |
| Chat.MarkAsWrittenFailsWhereIntendedMarks | src/main/java/com/swayam/bugwise/service/ChatService.java:202-219 | wherever a message is selected, the intended call marks it and publishes a receipt, while the as-written call fails |
| Chat.MarkFailsForUnreadMessage | src/main/java/com/swayam/bugwise/service/ChatService.java:202-219 | one unread message of the sender: as written the call fails, as intended it is marked and published |
| Chat.MarkSelectedClearsSelection | src/main/java/com/swayam/bugwise/service/ChatService.java:205-214 | after marking nothing is selected, so a second call publishes nothing and changes nothing |
| Chat.MarkSelected | src/main/java/com/swayam/bugwise/service/ChatService.java:205-214 | the stored messages after marking: one per message, position by position |
| Chat.Receipts | src/main/java/com/swayam/bugwise/service/ChatService.java:211-214 | the published receipts: never more than the messages stored |
| Chat.MarkAll | src/main/java/com/swayam/bugwise/service/ChatService.java:209 | the loop marks exactly the selected messages and returns their marked snapshots in order |
| Chat.ChatService.constructor | src/main/java/com/swayam/bugwise/service/ChatService.java:40 | starts with no participant lists |
| Chat.ChatService.SendMessage | src/main/java/com/swayam/bugwise/service/ChatService.java:47-65 | fails with "Failed to send message" exactly when the bug or user is unknown; otherwise a fresh CHAT message is saved and published |
| Chat.ChatService.SetParticipants | src/main/java/com/swayam/bugwise/service/ChatService.java:86-88 | the bug's entry becomes the list; nothing else changes |
| Chat.ChatService.DropParticipants | src/main/java/com/swayam/bugwise/service/ChatService.java:161-163 | the bug's entry is removed; nothing else changes |
| Chat.ChatService.PublishPresence | src/main/java/com/swayam/bugwise/service/ChatService.java:94-113 | a fresh presence message is saved, then it and the participants update are published in that order |
| Chat.ChatService.Announce | src/main/java/com/swayam/bugwise/service/ChatService.java:91-113 | a missing bug or sender raises the given failure with nothing saved or published; otherwise the presence message and update are published |
| Chat.ChatService.HandleUserJoin | src/main/java/com/swayam/bugwise/service/ChatService.java:84-119 | the email is registered at most once, even when the lookups fail; only a newcomer triggers the JOIN message and an update carrying the new list |
| Chat.ChatService.HandleUserLeave | src/main/java/com/swayam/bugwise/service/ChatService.java:133-169 | a non-participant changes nothing; a participant is removed, the LEAVE message and remaining list are published and an empty entry dropped; on a failed lookup the email stays removed and the entry stays |
| Chat.ChatService.AnnounceLeave | src/main/java/com/swayam/bugwise/service/ChatService.java:138-163 | after the removal: the announcement, then the empty entry is dropped only on success |
| Chat.ChatService.SendTypingNotification | src/main/java/com/swayam/bugwise/service/ChatService.java:171-188 | a TYPING message is published only for a current participant whose account exists |
| Chat.ChatService.MarkMessagesAsRead | src/main/java/com/swayam/bugwise/service/ChatService.java:202-219 | as written: the call always fails with "Failed to mark messages as read" and changes nothing |
| Chat.ChatService.MarkMessagesAsReadIntended | src/main/java/com/swayam/bugwise/service/ChatService.java:202-219 | with the query as intended, the selected messages gain the reader, others are unchanged, and receipts are published only when the selection is non-empty |
| NotificationConsumer.ValueString | src/main/java/com/swayam/bugwise/utils/NotificationConsumer.java:74 | `toString` of a metadata value: text as is, numbers in decimal, flags as true/false |
| NotificationConsumer.Stringified | src/main/java/com/swayam/bugwise/utils/NotificationConsumer.java:67-77 | no map gives the empty map; otherwise exactly the same keys, each value's text, nulls kept null |
| NotificationConsumer.NumberReadsBack | src/main/java/com/swayam/bugwise/utils/NotificationConsumer.java:74 | a 32-bit numeric value reads back from its text as the same number |
| NotificationConsumer.ConvertMetadata | src/main/java/com/swayam/bugwise/utils/NotificationConsumer.java:67-77 | the entry-by-entry fill computes the stringified map |
| NotificationConsumer.Record | src/main/java/com/swayam/bugwise/utils/NotificationConsumer.java:34-42 | the recipient's notification is unread and carries the message's type, title, content and stringified metadata |
| NotificationConsumer.Payload | src/main/java/com/swayam/bugwise/utils/NotificationConsumer.java:47-58 | the push carries the saved notification's id and fields |
| NotificationConsumer.NewRecords | src/main/java/com/swayam/bugwise/utils/NotificationConsumer.java:32-45 | one record per recipient, under consecutive ids in recipient order |
| NotificationConsumer.Pushes | src/main/java/com/swayam/bugwise/utils/NotificationConsumer.java:47-58 | one push per recipient, in recipient order, to that recipient |
| NotificationConsumer.ConsumedIsUnion | src/main/java/com/swayam/bugwise/utils/NotificationConsumer.java:32-64 | serving recipients one at a time adds exactly the new records |
| NotificationConsumer.PublishedIsAppend | src/main/java/com/swayam/bugwise/utils/NotificationConsumer.java:32-64 | pushing one at a time appends exactly the pushes |
| NotificationConsumer.ConsumeInAppNotification | src/main/java/com/swayam/bugwise/utils/NotificationConsumer.java:29-65 | the table gains one record per recipient under the next identity values and the outbox their pushes, in order |
| NotificationConsumer.NotifyRecipient | src/main/java/com/swayam/bugwise/utils/NotificationConsumer.java:33-58 | one iteration saves that recipient's record and pushes its payload |
| NotificationConsumer.EachRecipientNotified | src/main/java/com/swayam/bugwise/utils/NotificationConsumer.java:35-42 | each recipient owns an unread notification carrying the message |
| NotificationConsumer.EarlierNotificationsKept | src/main/java/com/swayam/bugwise/utils/NotificationConsumer.java:45 | notifications stored earlier are untouched |
| NotificationService.UnreadIds | src/main/java/com/swayam/bugwise/repository/jpa/UserNotificationRepository.java:16 | exactly the user's notifications that are unread |
| NotificationService.GetUnreadCount | src/main/java/com/swayam/bugwise/repository/jpa/UserNotificationRepository.java:17 | zero exactly when every notification of the user is read, and never more than the table holds |
| NotificationService.WithRead | src/main/java/com/swayam/bugwise/service/NotificationService.java:46-51 | that notification becomes read; an unknown id and every other notification are unchanged |
| NotificationService.AllReadFor | src/main/java/com/swayam/bugwise/repository/jpa/UserNotificationRepository.java:19-21 | the user's notifications all become read; other users' are unchanged |
| NotificationService.WithReadIdempotent | src/main/java/com/swayam/bugwise/service/NotificationService.java:48 | marking twice is marking once |
| NotificationService.AllReadClearsCount | src/main/java/com/swayam/bugwise/repository/jpa/UserNotificationRepository.java:19-21 | after marking all read, the user's unread count is zero |
| NotificationService.AllReadKeepsOtherCounts | src/main/java/com/swayam/bugwise/repository/jpa/UserNotificationRepository.java:20 | other users' unread counts are unchanged |
| NotificationService.WithReadDecrementsCount | src/main/java/com/swayam/bugwise/service/NotificationService.java:46-51 | reading one of one's unread notifications lowers one's count by exactly one |
| NotificationService.SendNotification | src/main/java/com/swayam/bugwise/service/NotificationService.java:58-67 | the message is queued on the in-app exchange |
| NotificationService.MarkAsRead | src/main/java/com/swayam/bugwise/service/NotificationService.java:46-51 | the table becomes the one with that notification read |
| NotificationService.MarkAllAsRead | src/main/java/com/swayam/bugwise/service/NotificationService.java:54-56 | the table becomes the one with all the user's notifications read |
| AIAnalysis.DetermineBugType | src/main/java/com/swayam/bugwise/service/AIAnalysisService.java:162-168 | the type named by the trimmed, upper-cased reply, else OTHER |
| AIAnalysis.BugTypeNameIsUpperName | src/main/java/com/swayam/bugwise/service/AIAnalysisService.java:164 | every type's name is a non-empty enum spelling that parses back to it |
| AIAnalysis.BugTypeReplyTolerated | src/main/java/com/swayam/bugwise/service/AIAnalysisService.java:162-168 | a reply naming a type in lower case with surrounding whitespace yields that type |
| AIAnalysis.RequiredDeveloperTypes | src/main/java/com/swayam/bugwise/service/AIAnalysisService.java:177-189 | exactly the types named by some trimmed, upper-cased comma token; other tokens are dropped |
| AIAnalysis.DeveloperTypeNameIsClean | src/main/java/com/swayam/bugwise/service/AIAnalysisService.java:178-182 | every developer type's name is comma-free, survives trimming and upper-casing, and parses back to it |
| AIAnalysis.RequiredTypesRoundTrip | src/main/java/com/swayam/bugwise/service/AIAnalysisService.java:177-189 | a reply listing types the way the prompt asks yields exactly those types |
| AIAnalysis.EstimateTime | src/main/java/com/swayam/bugwise/service/AIAnalysisService.java:202-208 | the trimmed reply as an int, 8 when it does not parse; always within the int range |
| AIAnalysis.EstimateReadsBack | src/main/java/com/swayam/bugwise/service/AIAnalysisService.java:202-208 | any int written in decimal with whitespace around is read back |
| AIAnalysis.ProjectDevelopers | src/main/java/com/swayam/bugwise/service/AIAnalysisService.java:133-136 | exactly the DEVELOPERs assigned to the project |
| AIAnalysis.SuggestedIds | src/main/java/com/swayam/bugwise/service/AIAnalysisService.java:254-257 | the trimmed comma tokens of the reply, position by position |
| AIAnalysis.KnownIds | src/main/java/com/swayam/bugwise/service/AIAnalysisService.java:146-152 | only ids that are in the reply and name a developer of the pool, never more than the reply lists |
| AIAnalysis.KnownIdsAppend | src/main/java/com/swayam/bugwise/service/AIAnalysisService.java:146-152 | the filter keeps the reply's order |
| AIAnalysis.KnownIdsAllKnown | src/main/java/com/swayam/bugwise/service/AIAnalysisService.java:146-152 | a reply naming only pool developers is kept whole |
| AIAnalysis.UnknownIdDropped | src/main/java/com/swayam/bugwise/service/AIAnalysisService.java:150-151 | an id naming no pool developer contributes nothing |
| AIAnalysis.PickDevelopers | src/main/java/com/swayam/bugwise/service/AIAnalysisService.java:146-152 | each kept id replaced by its developer, position by position |
| AIAnalysis.SuggestionsAreProjectDevelopers | src/main/java/com/swayam/bugwise/service/AIAnalysisService.java:132-153 | every suggestion is a stored DEVELOPER assigned to the bug's project and named in the reply |
| AIAnalysis.DeveloperLabel | src/main/java/com/swayam/bugwise/service/AIAnalysisService.java:226-231 | the email of the developer the trimmed id names, else "Unknown developer" |
| AIAnalysis.DevelopersInfo | src/main/java/com/swayam/bugwise/service/AIAnalysisService.java:225-233 | the labels of the comma-separated ids joined by ", "; a list of one id gives that id's label |
| AIAnalysis.PastBugLine | src/main/java/com/swayam/bugwise/service/AIAnalysisService.java:224-238 | the line for one similar bug is a non-empty "- " bullet |
| AIAnalysis.PastBugLines | src/main/java/com/swayam/bugwise/service/AIAnalysisService.java:222-239 | one "- " line per similar bug with an assignee list; none exactly when no such bug exists |
| AIAnalysis.PastBugsInfo | src/main/java/com/swayam/bugwise/service/AIAnalysisService.java:222-243 | the lines joined by newlines when there are any |
| AIAnalysis.NoSimilarBugsExactly | src/main/java/com/swayam/bugwise/service/AIAnalysisService.java:241-243 | the fallback text appears exactly when no similar bug has an assignee list |
| AIAnalysis.EmptyAssigneeListIsUnknown | src/main/java/com/swayam/bugwise/service/AIAnalysisService.java:225-233 | an empty assignee list renders as "Unknown developer" |
| AIAnalysis.ToSuggestions | src/main/java/com/swayam/bugwise/service/AIAnalysisService.java:117-125 | one suggestion per developer, carrying its id, email and type, in order |
| AIAnalysis.GetBugSuggestions | src/main/java/com/swayam/bugwise/service/AIAnalysisService.java:102-130 | an unknown bug is NotFound; otherwise the parsed type, required types, estimate and suggested developers |
| ExceptionHandler.LastWins | src/main/java/com/swayam/bugwise/exception/GlobalExceptionHandler.java:21-28 | the map's keys are exactly the fields having an error |
| ExceptionHandler.LastWinsIsLast | src/main/java/com/swayam/bugwise/exception/GlobalExceptionHandler.java:24-26 | each field maps to the message of its last error |
| ExceptionHandler.HandleFieldErrors | src/main/java/com/swayam/bugwise/exception/GlobalExceptionHandler.java:21-28 | the loop yields 400 "Validation failed" with the last-wins field map |
| ExceptionHandler.HandleRaised | src/main/java/com/swayam/bugwise/exception/GlobalExceptionHandler.java:30-64 | validation 400 with its map, authentication 401, no such element 404, unauthorised 403 with its message, anything else 500 with its message |
| ExceptionHandler.HandleNoHandlerFound | src/main/java/com/swayam/bugwise/exception/GlobalExceptionHandler.java:53-57 | an unknown endpoint is 404 "Endpoint not found" |
| ExceptionHandler.Handle | src/main/java/com/swayam/bugwise/exception/GlobalExceptionHandler.java:21-64 | each failure goes to the handler for its class |
| ExceptionHandler.BadRequestIsValidation | src/main/java/com/swayam/bugwise/exception/GlobalExceptionHandler.java:21-33 | a 400 is exactly a validation failure, and its body always says "Validation failed" |
| ExceptionHandler.NotFoundStatuses | src/main/java/com/swayam/bugwise/exception/ResourceNotFoundException.java:8 | 404 exactly for a missing element or endpoint; a ResourceNotFoundException is a 500 |
| ExceptionHandler.KnownStatuses | src/main/java/com/swayam/bugwise/exception/GlobalExceptionHandler.java:21-64 | every response has one of the five declared statuses |

## Left out

- Controllers, HTTP routing and `@PreAuthorize` role gating are framework configuration and are not modelled.
- `AuthService.login`, `UserService.updateUserPassword` and the web-socket authentication interceptor are authentication plumbing. `Signup` takes the password encoder and the token generator as function parameters.
- Kafka, RabbitMQ and STOMP transport is left out. A send is an append to `Store.outbox`; the `@KafkaListener` and `@RabbitListener` broadcasters that forward messages are not modelled.
- The typing listener is left out. It would dereference the typing message's null bug.
- The read-receipt listener is left out. It would dereference the null recipient.
- Elasticsearch queries (`searchBugDocumentsInProject`, `getAssignedBugsForDeveloper`, `findSimilarBugs`) are left out. Their hits are parameters of the operations that use them.
- The LLM client and prompt templating are left out. The replies are arbitrary strings given as parameters.
- The `developersList` prompt text and the per-developer workload counts only go into prompts, so they are not modelled.
- Transactions are not modelled as such. Each error path instead leaves the tables unchanged.
- `@Lock`, caching annotations and the thread safety of `ConcurrentHashMap` and `CopyOnWriteArrayList` are not modelled. Operations run one at a time.
- Paging and ordering are not modelled. Read paths return sets of ids rather than pages; the `...OrderByCreatedAtDesc` finders and `getUserNotifications` are not modelled.
- Timestamps (`createdAt`, `updatedAt`) are not modelled.
- DTO conversion (ModelMapper) and response shapes beyond the fields the contracts name are not modelled.
- Logging is not modelled.
- Storage identity is not modelled. UUID generation is a fresh-id parameter, and notification ids are a counter standing for the identity column.
- Case mapping covers ASCII letters only; Unicode case folding is not modelled.
- Text.ParseInt: only the ASCII digits `0`-`9` are accepted. `Integer.parseInt` also accepts other Unicode decimal digits, so for such a reply `AIAnalysis.EstimateTime` gives 8 where Java reads the number.
- Text.Like: `%` and `_` are wildcards wherever they occur, and there is no escape character. A database's backslash escape in a search term is not modelled.
- Db.FindAllById: the found ids come back in request order. The database returns `WHERE id IN (...)` rows in an order of its own. So when several found developers lack a skill, which one the `assignBugToDevelopers` error names is fixed here by the request but left to the database in the source.
- A project's manager is always set here (`Project.managerId` is an id). The `project_manager_id` join column is nullable, so a project without a manager is not modelled.
- The text of JVM exception messages is not modelled. A null dereference gives `Runtime("")`, where newer JVMs fill in a descriptive message that the 500 body would carry. The cast failure's message is the constant `BugService.CastFailure`, not the JVM's exact wording.
- The JOIN and LEAVE builder messages have no content although the column is NOT NULL. The model takes their save as succeeding.
- NotificationConsumer.ConsumeInAppNotification: the per-recipient `catch` that logs a failed save and goes on with the next recipient is not modelled, because saving a notification cannot fail in the model.
- CommentService.CreateComment: the model records that the notification is queued and the comment stored. It does not record which of the two happens first, since they touch separate tables.
- ProjectService.FillStatusCounts: counts are unbounded integers. The `intValue()` truncation of counts of 2^31 or more is not modelled.
- OrganizationService.GetOrganizationStats: counts are unbounded integers. Java's `int` set sizes are not modelled.
- UserService.GetDescendantUserCount: the sums are unbounded. `long` overflow is not modelled.
- `getBug`, `getProject`, `getProjectsForUser`, `getOrganizationProjects`, `getUsersInOrganization`, `deleteOrganization`, `getBugComments`, `getUserComments`, `findActiveUsers`, `getCurrentUser`, `getUnreadNotifications` and the other plain lookups are read-through repository calls outside the modelled rules.
- Chat.ChatService.MarkMessagesAsRead: as written, the source always fails there, because its unread query is rejected by the database; the catch-all that rethrows this failure is modelled, and the marking it never reaches is modelled separately as `Chat.ChatService.MarkMessagesAsReadIntended`. The causes of other failures inside the catch-all (a failed save or publish) are not modelled.
- `UnauthorizedAccessException.java`, `ExceptionResponseDTO`, `SignupRequestDTO`, `UpdateUserRequestDTO` and the enum files other than `BugStatus` are not part of this model. Those types are given the shapes their uses imply.

## Findings

| source | as written | input that shows it | evidently intended | confidence | as-written member | corrected member |
|---|---|---|---|---|---|---|
| src/main/java/com/swayam/bugwise/service/BugService.java:156 | the `List<User>` from `findAllById` is cast to `Set<User>`, which always throws a ClassCastException (a 500), so no developer is ever assigned | a bug requiring BACKEND and `developerIds == ["d1"]` naming a BACKEND developer (`BugService.CastFailsForSkilledDeveloper`) | the found developers are converted to a set (`new HashSet<>(developers)`), assigned, and the bug set OPEN and saved | not executed | BugService.AssignAsWritten | BugService.AssignIntended |
| src/main/java/com/swayam/bugwise/repository/jpa/ChatMessageRepository.java:15-19 | the JPQL text of `findUnreadMessagesByBugAndSender` is declared `nativeQuery = true`, so it runs as SQL against a table `ChatMessage` and paths `cm.bug.id`, `cm.readBy` that do not exist; every `markMessagesAsRead` call fails with "Failed to mark messages as read" (a 500), marking and publishing nothing | one unread CHAT message of user u1 in bug b1 (`Chat.MarkFailsForUnreadMessage`) | the query runs as JPQL: the bug's messages sent by the user and not yet read by them are marked and published as read receipts | not executed | Chat.MarkAsWritten | Chat.ChatService.MarkMessagesAsReadIntended |
