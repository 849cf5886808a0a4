/**
 * The comment service: a new comment notifies the bug's people, and only
 * the author may edit a comment.
 */
module CommentService {

  import opened Base
  import opened Entities
  import opened Db
  import opened BugService
  import NotificationService

  datatype CommentRequest = CommentRequest(content: string, bugId: Id)

  /** Who is told about a new comment: the assigned developers' emails, then the reporter's. */
  function CommentRecipients(b: Bug, users: map<Id, User>): (r: seq<string>)
    requires AssigneesOk(b, users) && b.reportedById in users
    ensures |r| == |b.assignedIds| + 1
    ensures forall i :: 0 <= i < |b.assignedIds| ==> r[i] == users[b.assignedIds[i]].email
    ensures r[|b.assignedIds|] == users[b.reportedById].email
  {
    AssigneeEmails(b, users) + [users[b.reportedById].email]
  }

  /** The notification a new comment queues. */
  function CommentNotification(bugId: Id, author: string, recipients: seq<string>): (m: NotificationMessage)
    ensures m.notificationType == CommentAdded && m.recipients == recipients
    ensures m.metadata == Some(map["bugId" := Some(Str(bugId)), "commentAuthor" := Some(Str(author))])
    ensures m.inAppDetails.deepLink == "/bugs/" + bugId
  {
    NotificationMessage(CommentAdded, "Comment Added", "New Comment on Bug",
      Some(map["bugId" := Some(Str(bugId)), "commentAuthor" := Some(Str(author))]),
      recipients,
      InAppDetails("/bugs/" + bugId, "comment-icon.png"))
  }

  /** `commentRepository.save`: the row is stored under its id. */
  method SaveComment(store: Store, c: Comment)
    requires store.Valid() && c.bugId in store.bugs && c.authorId in store.users
    modifies store`comments
    ensures store.Valid()
    ensures store.comments == old(store.comments)[c.id := c]
  {
    SaveCommentKeepsIntegrity(store.comments, store.bugs, store.users, c);
    store.comments := store.comments[c.id := c];
  }

  /**
   * `createComment`: with the bug and the author found, the notification is
   * queued and then the comment is stored; an unknown bug or author
   * queues and stores nothing.
   */
  method CreateComment(store: Store, request: CommentRequest, updatedBy: string, newId: Id) returns (r: Result<Comment>)
    requires store.Valid()
    requires newId !in store.comments
    modifies store`comments, store`outbox
    ensures store.Valid()
    ensures request.bugId !in store.bugs ==> r == Err(NotFound(NoSuchElement, "Bug not found"))
    ensures request.bugId in store.bugs && !EmailTaken(store.users, updatedBy) ==> r == Err(NotFound(NoSuchElement, "No value present"))
    ensures r.Ok? <==> request.bugId in store.bugs && EmailTaken(store.users, updatedBy)
    ensures r.Err? ==> store.comments == old(store.comments) && store.outbox == old(store.outbox)
    ensures r.Ok? ==>
      var b := store.bugs[request.bugId];
      r.value == Comment(newId, request.content, request.bugId, FindByEmail(store.users, updatedBy).value.id)
      && store.comments == old(store.comments)[newId := r.value]
      && store.outbox == old(store.outbox)
           + [NotificationQueued(CommentNotification(request.bugId, updatedBy, CommentRecipients(b, store.users)))]
  {
    if request.bugId !in store.bugs {
      return Err(NotFound(NoSuchElement, "Bug not found"));
    }
    var b := store.bugs[request.bugId];
    var author := FindByEmail(store.users, updatedBy);
    if author.None? {
      return Err(NotFound(NoSuchElement, "No value present"));
    }
    var c := Comment(newId, request.content, request.bugId, author.value.id);
    var message := CommentNotification(request.bugId, updatedBy, CommentRecipients(b, store.users));
    NotificationService.SendNotification(store, message);
    SaveComment(store, c);
    return Ok(c);
  }

  /** The reporter is always told, and every assigned developer is told, about a new comment. */
  lemma {:induction false} EveryoneOnTheBugIsNotified(b: Bug, users: map<Id, User>, id: Id)
    requires AssigneesOk(b, users) && b.reportedById in users
    requires id in b.assignedIds || id == b.reportedById
    ensures users[id].email in CommentRecipients(b, users)
  {
    var r := CommentRecipients(b, users);
    if id == b.reportedById {
      assert r[|b.assignedIds|] == users[id].email;
    } else {
      var i :| 0 <= i < |b.assignedIds| && b.assignedIds[i] == id;
      assert r[i] == users[id].email;
    }
  }

  /**
   * `updateComment`: checked in the order comment exists, comment belongs
   * to the named bug, current user is the author; then only the content changes.
   */
  method UpdateComment(store: Store, request: CommentRequest, commentId: Id, currentUsername: string) returns (r: Result<Comment>)
    requires store.Valid()
    modifies store`comments
    ensures store.Valid()
    ensures commentId !in store.comments ==> r == Err(NotFound(NoSuchElement, "Comment not found with id: " + commentId))
    ensures commentId in old(store.comments) ==>
      var c := old(store.comments)[commentId];
      (c.bugId != request.bugId ==> r == Err(IllegalArgument("Comment does not belong to the specified bug")))
      && (c.bugId == request.bugId && store.users[c.authorId].email != currentUsername ==>
            r == Err(ValidationOf("error", "You are not authorized to update this comment")))
      && (c.bugId == request.bugId && store.users[c.authorId].email == currentUsername ==>
            r == Ok(c.(content := request.content)))
    ensures r.Err? ==> store.comments == old(store.comments)
    ensures r.Ok? ==> store.comments == old(store.comments)[commentId := r.value]
  {
    if commentId !in store.comments {
      return Err(NotFound(NoSuchElement, "Comment not found with id: " + commentId));
    }
    var c := store.comments[commentId];
    if c.bugId != request.bugId {
      return Err(IllegalArgument("Comment does not belong to the specified bug"));
    }
    if store.users[c.authorId].email != currentUsername {
      return Err(ValidationOf("error", "You are not authorized to update this comment"));
    }
    var updated := c.(content := request.content);
    SaveComment(store, updated);
    return Ok(updated);
  }
}
