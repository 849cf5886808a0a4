/**
 * The chat service: the per-bug list of active participants, the join,
 * leave and typing events it publishes, and read receipts.
 */
module Chat {

  import opened Base
  import opened Entities
  import opened Db
  import opened ChatMessages

  // ---------------------------------------------------------------------
  // the participant lists (copy-on-write array lists)
  // ---------------------------------------------------------------------

  /** The list recorded for a bug, empty when the bug has no entry. */
  function ListOf(m: map<Id, seq<string>>, bugId: Id): seq<string> {
    if bugId in m then m[bugId] else []
  }

  /** Every recorded list is free of repetitions. */
  predicate ListsDistinct(m: map<Id, seq<string>>) {
    forall b :: b in m ==> Distinct(m[b])
  }

  /** `addIfAbsent`: the element is appended unless it is already there. */
  function AddIfAbsent(xs: seq<string>, x: string): (r: seq<string>)
    ensures x in r
    ensures x in xs ==> r == xs
    ensures x !in xs ==> r == xs + [x]
    ensures Distinct(xs) ==> Distinct(r)
  {
    if x in xs then xs else xs + [x]
  }

  /** The position of the first occurrence of an element. */
  function FirstIndex(xs: seq<string>, x: string): (i: nat)
    requires x in xs
    ensures i < |xs| && xs[i] == x && x !in xs[..i]
  {
    if xs[0] == x then 0
    else
      var i := FirstIndex(xs[1..], x);
      assert xs[..i + 1] == [xs[0]] + xs[1..][..i];
      i + 1
  }

  /** `remove(Object)`: the first occurrence is dropped; a missing element changes nothing. */
  function RemoveFirst(xs: seq<string>, x: string): (r: seq<string>)
    ensures x !in xs ==> r == xs
    ensures x in xs ==> r == xs[..FirstIndex(xs, x)] + xs[FirstIndex(xs, x) + 1..]
  {
    if x in xs then xs[..FirstIndex(xs, x)] + xs[FirstIndex(xs, x) + 1..] else xs
  }

  /** The element at position k once position i is removed. */
  lemma {:induction false} RemovedAt(xs: seq<string>, i: nat, k: nat)
    requires i < |xs| && k < |xs| - 1
    ensures (xs[..i] + xs[i + 1..])[k] == (if k < i then xs[k] else xs[k + 1])
  {
  }

  /** In a list without repetitions, removing leaves a list without repetitions holding exactly the other elements. */
  lemma {:induction false} RemoveFirstDistinct(xs: seq<string>, x: string)
    requires Distinct(xs)
    ensures Distinct(RemoveFirst(xs, x))
    ensures forall y :: y in RemoveFirst(xs, x) <==> y in xs && y != x
  {
    if x in xs {
      var i := FirstIndex(xs, x);
      var r := RemoveFirst(xs, x);
      forall a, b | 0 <= a < b < |r| ensures r[a] != r[b] {
        RemovedAt(xs, i, a);
        RemovedAt(xs, i, b);
      }
      forall y ensures y in r <==> y in xs && y != x {
        if y in r {
          var k :| 0 <= k < |r| && r[k] == y;
          RemovedAt(xs, i, k);
        }
        if y in xs && y != x {
          var k :| 0 <= k < |xs| && xs[k] == y;
          if k < i {
            RemovedAt(xs, i, k);
          } else {
            RemovedAt(xs, i, k - 1);
          }
        }
      }
    }
  }

  /** The participant lists after `handleUserJoin`: the entry is created if missing and the email added once. */
  function AfterJoin(m: map<Id, seq<string>>, bugId: Id, email: string): (r: map<Id, seq<string>>)
    ensures bugId in r && email in r[bugId]
    ensures forall b :: b != bugId ==> (b in r <==> b in m) && (b in m ==> r[b] == m[b])
  {
    m[bugId := AddIfAbsent(ListOf(m, bugId), email)]
  }

  /** The lists after a leave whose lookups failed: the email is gone, the (possibly empty) entry stays. */
  function AfterFailedLeave(m: map<Id, seq<string>>, bugId: Id, email: string): (r: map<Id, seq<string>>)
    requires bugId in m
  {
    m[bugId := RemoveFirst(m[bugId], email)]
  }

  /** The lists after a completed leave: the email is gone and an entry left empty is dropped. */
  function AfterLeave(m: map<Id, seq<string>>, bugId: Id, email: string): (r: map<Id, seq<string>>)
    requires bugId in m
    ensures RemoveFirst(m[bugId], email) == [] ==> r == m - {bugId}
    ensures RemoveFirst(m[bugId], email) != [] ==> r == AfterFailedLeave(m, bugId, email)
  {
    var rest := RemoveFirst(m[bugId], email);
    if rest == [] then m - {bugId} else m[bugId := rest]
  }

  /** Replacing an entry and then dropping it is dropping it. */
  lemma {:induction false} UpdateThenDrop(m: map<Id, seq<string>>, bugId: Id, xs: seq<string>)
    ensures m[bugId := xs] - {bugId} == m - {bugId}
  {
    assert (m[bugId := xs] - {bugId}).Keys == (m - {bugId}).Keys;
  }

  lemma {:induction false} UpdateKeepsListsDistinct(m: map<Id, seq<string>>, bugId: Id, xs: seq<string>)
    requires ListsDistinct(m) && Distinct(xs)
    ensures ListsDistinct(m[bugId := xs])
  {
  }

  /** Joining twice is joining once. */
  lemma {:induction false} JoinIdempotent(m: map<Id, seq<string>>, bugId: Id, email: string)
    ensures AfterJoin(AfterJoin(m, bugId, email), bugId, email) == AfterJoin(m, bugId, email)
  {
    assert email in AfterJoin(m, bugId, email)[bugId];
  }

  /**
   * A newcomer who joins and then leaves (with both lookups succeeding)
   * restores the lists, provided the bug had no empty entry.
   */
  lemma {:induction false} JoinThenLeave(m: map<Id, seq<string>>, bugId: Id, email: string)
    requires ListsDistinct(m)
    requires email !in ListOf(m, bugId)
    requires bugId in m ==> m[bugId] != []
    ensures AfterLeave(AfterJoin(m, bugId, email), bugId, email) == m
  {
    var xs := ListOf(m, bugId);
    var joined := AfterJoin(m, bugId, email);
    assert joined[bugId] == xs + [email];
    RemoveFirstAppended(xs, email);
    if bugId in m {
      assert AfterLeave(joined, bugId, email) == joined[bugId := xs];
    } else {
      assert AfterLeave(joined, bugId, email) == joined - {bugId};
    }
  }

  lemma {:induction false} RemoveFirstAppended(xs: seq<string>, x: string)
    requires x !in xs
    ensures RemoveFirst(xs + [x], x) == xs
    decreases |xs|
  {
    if xs != [] {
      assert (xs + [x])[0] == xs[0];
      assert (xs + [x])[1..] == xs[1..] + [x];
      RemoveFirstAppended(xs[1..], x);
      assert [xs[0]] + xs[1..] == xs;
    }
  }

  // ---------------------------------------------------------------------
  // read receipts, on message snapshots
  // ---------------------------------------------------------------------

  /** The repository's unread selection: messages of this bug, SENT by this user, not yet read by them. */
  predicate Selected(d: ChatMessageData, bugId: Id, userId: Id) {
    d.bugId == Some(bugId) && d.senderId == Some(userId) && UnreadBy(d, userId)
  }

  /** A message snapshot after `markAsRead(userId)`. */
  function MarkedBy(d: ChatMessageData, userId: Id): (r: ChatMessageData)
    ensures userId in Readers(r.readBy) && Readers(r.readBy) == Readers(d.readBy) + {userId}
    ensures r.(readBy := d.readBy) == d
  {
    d.(readBy := Some(Readers(d.readBy) + {userId}))
  }

  /** Marking twice is marking once. */
  lemma {:induction false} MarkedByIdempotent(d: ChatMessageData, userId: Id)
    ensures MarkedBy(MarkedBy(d, userId), userId) == MarkedBy(d, userId)
  {
  }

  /** All messages after `markMessagesAsRead`: the selected ones marked, the rest as they were. */
  function MarkSelected(ds: seq<ChatMessageData>, bugId: Id, userId: Id): (r: seq<ChatMessageData>)
    ensures |r| == |ds|
  {
    seq(|ds|, i requires 0 <= i < |ds| => if Selected(ds[i], bugId, userId) then MarkedBy(ds[i], userId) else ds[i])
  }

  /** The published read receipts: the selected messages, marked, in storage order. */
  function Receipts(ds: seq<ChatMessageData>, bugId: Id, userId: Id): (r: seq<ChatMessageData>)
    ensures |r| <= |ds|
    decreases |ds|
  {
    if ds == [] then []
    else
      var last := ds[|ds| - 1];
      Receipts(ds[..|ds| - 1], bugId, userId) + (if Selected(last, bugId, userId) then [MarkedBy(last, userId)] else [])
  }

  /** Receipts are published iff some message was selected, and every receipt carries the reader. */
  lemma {:induction false} ReceiptsOfSelection(ds: seq<ChatMessageData>, bugId: Id, userId: Id)
    ensures Receipts(ds, bugId, userId) == [] <==> forall i :: 0 <= i < |ds| ==> !Selected(ds[i], bugId, userId)
    ensures forall k :: 0 <= k < |Receipts(ds, bugId, userId)| ==> userId in Readers(Receipts(ds, bugId, userId)[k].readBy)
    decreases |ds|
  {
    if ds != [] {
      var init := ds[..|ds| - 1];
      ReceiptsOfSelection(init, bugId, userId);
      assert forall i :: 0 <= i < |init| ==> init[i] == ds[i];
    }
  }

  /** After marking, nothing is selected any more: a second call publishes nothing. */
  lemma {:induction false} MarkSelectedClearsSelection(ds: seq<ChatMessageData>, bugId: Id, userId: Id)
    ensures forall i :: 0 <= i < |ds| ==> !Selected(MarkSelected(ds, bugId, userId)[i], bugId, userId)
    ensures Receipts(MarkSelected(ds, bugId, userId), bugId, userId) == []
    ensures MarkSelected(MarkSelected(ds, bugId, userId), bugId, userId) == MarkSelected(ds, bugId, userId)
  {
    var marked := MarkSelected(ds, bugId, userId);
    ReceiptsOfSelection(marked, bugId, userId);
  }

  /** The failure `markMessagesAsRead` rethrows from its catch-all. */
  const MarkFailure := "Failed to mark messages as read"

  /**
   * `findUnreadMessagesByBugAndSender` as declared: its JPQL text is sent to
   * the database as native SQL, where there is no table `ChatMessage` and no
   * column `cm.bug.id` or `cm.readBy` (the entity's table is `chat_messages`),
   * so the query fails whatever the messages are. The JVM's message for that
   * failure is not modelled.
   */
  function NativeUnreadQuery(ds: seq<ChatMessageData>, bugId: Id, userId: Id): (r: Result<seq<ChatMessageData>>)
    ensures r.Err?
  {
    Err(Runtime(""))
  }

  /**
   * `markMessagesAsRead` as written, on the stored messages: the query throws,
   * the catch-all rethrows its own failure, and the marking after the query is
   * never reached.
   */
  function MarkAsWritten(ds: seq<ChatMessageData>, bugId: Id, userId: Id): (r: Result<seq<ChatMessageData>>)
    ensures r == Err(Runtime(MarkFailure))
  {
    match NativeUnreadQuery(ds, bugId, userId)
    case Err(_) => Err(Runtime(MarkFailure))
    case Ok(_) => Ok(MarkSelected(ds, bugId, userId))
  }

  /**
   * Wherever some message is selected, the intended query would mark it and
   * publish a receipt, while the code as written fails.
   */
  lemma {:induction false} MarkAsWrittenFailsWhereIntendedMarks(ds: seq<ChatMessageData>, bugId: Id, userId: Id, i: int)
    requires 0 <= i < |ds| && Selected(ds[i], bugId, userId)
    ensures MarkAsWritten(ds, bugId, userId) == Err(Runtime(MarkFailure))
    ensures MarkSelected(ds, bugId, userId)[i] != ds[i]
    ensures Receipts(ds, bugId, userId) != []
  {
    ReceiptsOfSelection(ds, bugId, userId);
  }

  /** One unread message of user u1 in bug b1: as written the call fails, as intended it is marked and published. */
  lemma MarkFailsForUnreadMessage()
    ensures var d := ChatMessageData(Some("hi"), Some("b1"), Some("u1"), None, MessageType.Chat, Some({}));
      MarkAsWritten([d], "b1", "u1") == Err(Runtime(MarkFailure))
      && MarkSelected([d], "b1", "u1") == [d.(readBy := Some({"u1"}))]
      && Receipts([d], "b1", "u1") == [d.(readBy := Some({"u1"}))]
  {
    var d := ChatMessageData(Some("hi"), Some("b1"), Some("u1"), None, MessageType.Chat, Some({}));
    assert Selected(d, "b1", "u1");
    assert Readers(d.readBy) == {};
    assert Readers(d.readBy) + {"u1"} == {"u1"};
    assert MarkedBy(d, "u1") == d.(readBy := Some({"u1"}));
    var none: seq<ChatMessageData> := [];
    assert [d][..0] == none;
    assert Receipts([d], "b1", "u1") == Receipts(none, "b1", "u1") + [MarkedBy(d, "u1")];
  }

  /** The snapshot of a sequence of message objects. */
  function Snapshot(ms: seq<ChatMessage>): (r: seq<ChatMessageData>)
    reads ms
    ensures |r| == |ms| && forall i :: 0 <= i < |ms| ==> r[i] == ms[i].Data()
  {
    seq(|ms|, i requires 0 <= i < |ms| reads ms => ms[i].Data())
  }

  /** The messages assembled by the builder for a join or leave: no content, no recipient, no read-by set. */
  function PresenceData(bugId: Id, senderId: Id, messageType: MessageType): ChatMessageData {
    ChatMessageData(None, Some(bugId), Some(senderId), None, messageType, None)
  }

  lemma {:induction false} AppendFreshKeepsDistinct(ms: seq<ChatMessage>, m: ChatMessage)
    requires Distinct(ms) && m !in ms
    ensures Distinct(ms + [m])
  {
    var r := ms + [m];
    forall i, j | 0 <= i < j < |r| ensures r[i] != r[j] {
      assert r[i] == ms[i];
    }
  }

  /**
   * The `forEach(markAsRead)` over the selection, each message visited once:
   * the selected messages are marked, in place, and returned as receipts.
   */
  method MarkAll(ms: seq<ChatMessage>, bugId: Id, userId: Id) returns (receipts: seq<ChatMessageData>)
    requires Distinct(ms)
    modifies ms
    ensures Snapshot(ms) == MarkSelected(old(Snapshot(ms)), bugId, userId)
    ensures receipts == Receipts(old(Snapshot(ms)), bugId, userId)
  {
    ghost var before := Snapshot(ms);
    receipts := [];
    var i := 0;
    while i < |ms|
      invariant 0 <= i <= |ms|
      invariant forall j :: 0 <= j < |ms| ==> ms[j].Data() == (if j < i then MarkSelected(before, bugId, userId)[j] else before[j])
      invariant receipts == Receipts(before[..i], bugId, userId)
    {
      assert before[..i + 1][..i] == before[..i];
      if Selected(ms[i].Data(), bugId, userId) {
        ms[i].MarkAsRead(userId);
        receipts := receipts + [ms[i].Data()];
      }
      i := i + 1;
    }
    assert before[..|ms|] == before;
  }

  datatype ChatMessageRequest = ChatMessageRequest(content: string, bugId: Id)

  class ChatService {
    const store: Store
    var activeBugParticipants: map<Id, seq<string>>

    ghost predicate Valid()
      reads this, store
    {
      store.Valid() && Distinct(store.messages) && ListsDistinct(activeBugParticipants)
    }

    constructor (store: Store)
      requires store.Valid() && Distinct(store.messages)
      ensures Valid() && this.store == store && activeBugParticipants == map[]
    {
      this.store := store;
      activeBugParticipants := map[];
    }

    /**
     * `sendMessage`: with the bug and the current user found, a CHAT message
     * is created, saved and published; otherwise "Failed to send message"
     * and nothing is saved or published.
     */
    method SendMessage(request: ChatMessageRequest, currentEmail: string) returns (r: Result<ChatMessage>)
      requires Valid()
      modifies store`messages, store`outbox
      ensures Valid()
      ensures r.Err? <==> request.bugId !in store.bugs || !EmailTaken(store.users, currentEmail)
      ensures r.Err? ==>
        r.error == Runtime("Failed to send message")
        && store.messages == old(store.messages) && store.outbox == old(store.outbox)
      ensures r.Ok? ==>
        var data := ChatMessageData(Some(request.content), Some(request.bugId),
                                    Some(FindByEmail(store.users, currentEmail).value.id), None, MessageType.Chat, Some({}));
        fresh(r.value) && r.value.Data() == data
        && store.messages == old(store.messages) + [r.value]
        && store.outbox == old(store.outbox) + [ChatPublished(data)]
    {
      if request.bugId !in store.bugs {
        return Err(Runtime("Failed to send message"));
      }
      var sender := FindByEmail(store.users, currentEmail);
      if sender.None? {
        return Err(Runtime("Failed to send message"));
      }
      var m := ChatMessage.CreateMessage(request.content, request.bugId, sender.value.id, MessageType.Chat);
      AppendFreshKeepsDistinct(store.messages, m);
      store.messages := store.messages + [m];
      store.outbox := store.outbox + [ChatPublished(m.Data())];
      return Ok(m);
    }

    /** `activeBugParticipants.put(bugId, list)`. */
    method SetParticipants(bugId: Id, list: seq<string>)
      requires Valid() && Distinct(list)
      modifies this
      ensures Valid()
      ensures activeBugParticipants == old(activeBugParticipants)[bugId := list]
    {
      UpdateKeepsListsDistinct(activeBugParticipants, bugId, list);
      activeBugParticipants := activeBugParticipants[bugId := list];
    }

    /** `activeBugParticipants.remove(bugId)`. */
    method DropParticipants(bugId: Id)
      requires Valid()
      modifies this
      ensures Valid()
      ensures activeBugParticipants == old(activeBugParticipants) - {bugId}
    {
      activeBugParticipants := activeBugParticipants - {bugId};
    }

    /**
     * The common tail of a join and a leave: the builder's message is saved
     * and published, then the participants update.
     */
    method PublishPresence(bugId: Id, senderId: Id, messageType: MessageType, update: ParticipantsUpdate)
      requires Valid()
      modifies store`messages, store`outbox
      ensures Valid()
      ensures |store.messages| == |old(store.messages)| + 1
      ensures store.messages[..|old(store.messages)|] == old(store.messages)
      ensures fresh(store.messages[|old(store.messages)|])
      ensures store.messages[|old(store.messages)|].Data() == PresenceData(bugId, senderId, messageType)
      ensures store.outbox == old(store.outbox) + [ChatPublished(PresenceData(bugId, senderId, messageType)), ParticipantsPublished(update)]
    {
      var message := new ChatMessage.Build(Some(bugId), Some(senderId), messageType);
      AppendFreshKeepsDistinct(store.messages, message);
      store.messages := store.messages + [message];
      store.outbox := store.outbox + [ChatPublished(message.Data())];
      store.outbox := store.outbox + [ParticipantsPublished(update)];
      assert store.messages[..|old(store.messages)|] == old(store.messages);
    }

    /**
     * What a join and a leave do once the list is updated: look up the bug
     * and the user (a miss raises `failure`), then publish the presence message.
     */
    method Announce(bugId: Id, email: string, messageType: MessageType, update: ParticipantsUpdate, failure: string)
      returns (r: Result<()>)
      requires Valid()
      modifies store`messages, store`outbox
      ensures Valid()
      ensures bugId !in store.bugs || !EmailTaken(store.users, email) ==>
        r == Err(Runtime(failure)) && store.messages == old(store.messages) && store.outbox == old(store.outbox)
      ensures bugId in store.bugs && EmailTaken(store.users, email) ==>
        var data := PresenceData(bugId, FindByEmail(store.users, email).value.id, messageType);
        r == Ok(())
        && |store.messages| == |old(store.messages)| + 1
        && store.messages[..|old(store.messages)|] == old(store.messages)
        && fresh(store.messages[|old(store.messages)|])
        && store.messages[|old(store.messages)|].Data() == data
        && store.outbox == old(store.outbox) + [ChatPublished(data), ParticipantsPublished(update)]
    {
      if bugId !in store.bugs {
        return Err(Runtime(failure));
      }
      var sender := FindByEmail(store.users, email);
      if sender.None? {
        return Err(Runtime(failure));
      }
      PublishPresence(bugId, sender.value.id, messageType, update);
      return Ok(());
    }

    /**
     * `handleUserJoin`. The email is registered first, at most once. Only a
     * newcomer triggers the lookups; when they succeed the JOIN message is
     * saved and published, followed by the participants update carrying the
     * new list. A failing lookup gives "Failed to handle user join" and
     * leaves the email registered.
     */
    method HandleUserJoin(bugId: Id, email: string) returns (r: Result<()>)
      requires Valid()
      modifies this, store`messages, store`outbox
      ensures Valid()
      ensures activeBugParticipants == AfterJoin(old(activeBugParticipants), bugId, email)
      ensures email in ListOf(old(activeBugParticipants), bugId) ==>
        r == Ok(()) && store.messages == old(store.messages) && store.outbox == old(store.outbox)
      ensures email !in ListOf(old(activeBugParticipants), bugId) && (bugId !in store.bugs || !EmailTaken(store.users, email)) ==>
        r == Err(Runtime("Failed to handle user join"))
        && store.messages == old(store.messages) && store.outbox == old(store.outbox)
      ensures email !in ListOf(old(activeBugParticipants), bugId) && bugId in store.bugs && EmailTaken(store.users, email) ==>
        var data := PresenceData(bugId, FindByEmail(store.users, email).value.id, MessageType.Join);
        r == Ok(())
        && |store.messages| == |old(store.messages)| + 1
        && store.messages[..|old(store.messages)|] == old(store.messages)
        && fresh(store.messages[|old(store.messages)|])
        && store.messages[|old(store.messages)|].Data() == data
        && store.outbox == old(store.outbox)
             + [ChatPublished(data), ParticipantsPublished(ParticipantsUpdate(bugId, activeBugParticipants[bugId], email, ParticipantAction.Join))]
    {
      var participants := if bugId in activeBugParticipants then activeBugParticipants[bugId] else [];
      ghost var joined := AfterJoin(activeBugParticipants, bugId, email);
      if email in participants {
        SetParticipants(bugId, participants);
        assert activeBugParticipants == joined;
        return Ok(());
      }
      participants := participants + [email];
      SetParticipants(bugId, participants);
      assert activeBugParticipants == joined;
      r := Announce(bugId, email, MessageType.Join, ParticipantsUpdate(bugId, participants, email, ParticipantAction.Join),
                    "Failed to handle user join");
    }

    /**
     * `handleUserLeave`. Nothing happens unless the email is a participant.
     * It is removed first; when the lookups succeed the LEAVE message is
     * saved and published, then the participants update with the remaining
     * list, and an empty entry is dropped. A failing lookup gives "Failed to
     * handle user leave" with the email already removed and the entry kept.
     */
    method HandleUserLeave(bugId: Id, email: string) returns (r: Result<()>)
      requires Valid()
      modifies this, store`messages, store`outbox
      ensures Valid()
      ensures email !in ListOf(old(activeBugParticipants), bugId) ==>
        r == Ok(()) && activeBugParticipants == old(activeBugParticipants)
        && store.messages == old(store.messages) && store.outbox == old(store.outbox)
      ensures email in ListOf(old(activeBugParticipants), bugId) && (bugId !in store.bugs || !EmailTaken(store.users, email)) ==>
        r == Err(Runtime("Failed to handle user leave"))
        && activeBugParticipants == AfterFailedLeave(old(activeBugParticipants), bugId, email)
        && store.messages == old(store.messages) && store.outbox == old(store.outbox)
      ensures email in ListOf(old(activeBugParticipants), bugId) && bugId in store.bugs && EmailTaken(store.users, email) ==>
        var data := PresenceData(bugId, FindByEmail(store.users, email).value.id, MessageType.Leave);
        var rest := RemoveFirst(old(activeBugParticipants)[bugId], email);
        r == Ok(())
        && activeBugParticipants == AfterLeave(old(activeBugParticipants), bugId, email)
        && |store.messages| == |old(store.messages)| + 1
        && store.messages[..|old(store.messages)|] == old(store.messages)
        && fresh(store.messages[|old(store.messages)|])
        && store.messages[|old(store.messages)|].Data() == data
        && store.outbox == old(store.outbox)
             + [ChatPublished(data), ParticipantsPublished(ParticipantsUpdate(bugId, rest, email, ParticipantAction.Leave))]
    {
      if bugId !in activeBugParticipants || email !in activeBugParticipants[bugId] {
        return Ok(());
      }
      RemoveFirstDistinct(activeBugParticipants[bugId], email);
      var participants := RemoveFirst(activeBugParticipants[bugId], email);
      ghost var before := activeBugParticipants;
      SetParticipants(bugId, participants);
      r := AnnounceLeave(bugId, email, participants);
      UpdateThenDrop(before, bugId, participants);
    }

    /** A leave after the email is removed: the announcement, then dropping an entry left empty. */
    method AnnounceLeave(bugId: Id, email: string, participants: seq<string>) returns (r: Result<()>)
      requires Valid() && bugId in activeBugParticipants && activeBugParticipants[bugId] == participants
      modifies this, store`messages, store`outbox
      ensures Valid()
      ensures bugId !in store.bugs || !EmailTaken(store.users, email) ==>
        r == Err(Runtime("Failed to handle user leave")) && activeBugParticipants == old(activeBugParticipants)
        && store.messages == old(store.messages) && store.outbox == old(store.outbox)
      ensures bugId in store.bugs && EmailTaken(store.users, email) ==>
        var data := PresenceData(bugId, FindByEmail(store.users, email).value.id, MessageType.Leave);
        r == Ok(())
        && activeBugParticipants == (if participants == [] then old(activeBugParticipants) - {bugId} else old(activeBugParticipants))
        && |store.messages| == |old(store.messages)| + 1
        && store.messages[..|old(store.messages)|] == old(store.messages)
        && fresh(store.messages[|old(store.messages)|])
        && store.messages[|old(store.messages)|].Data() == data
        && store.outbox == old(store.outbox)
             + [ChatPublished(data), ParticipantsPublished(ParticipantsUpdate(bugId, participants, email, ParticipantAction.Leave))]
    {
      r := Announce(bugId, email, MessageType.Leave, ParticipantsUpdate(bugId, participants, email, ParticipantAction.Leave),
                    "Failed to handle user leave");
      if r.Ok? && participants == [] {
        DropParticipants(bugId);
      }
    }

    /**
     * `sendTypingNotification`: for a current participant whose account is
     * found, a TYPING message (no bug, not saved) is published; a
     * non-participant publishes nothing; a missing account gives "Failed to
     * send typing notification".
     */
    method SendTypingNotification(bugId: Id, email: string) returns (r: Result<()>)
      requires Valid()
      modifies store`outbox
      ensures Valid()
      ensures email !in ListOf(activeBugParticipants, bugId) ==> r == Ok(()) && store.outbox == old(store.outbox)
      ensures email in ListOf(activeBugParticipants, bugId) && !EmailTaken(store.users, email) ==>
        r == Err(Runtime("Failed to send typing notification")) && store.outbox == old(store.outbox)
      ensures email in ListOf(activeBugParticipants, bugId) && EmailTaken(store.users, email) ==>
        r == Ok(())
        && store.outbox == old(store.outbox)
             + [TypingPublished(ChatMessageData(None, None, Some(FindByEmail(store.users, email).value.id), None, MessageType.Typing, None))]
    {
      if bugId !in activeBugParticipants || email !in activeBugParticipants[bugId] {
        return Ok(());
      }
      var sender := FindByEmail(store.users, email);
      if sender.None? {
        return Err(Runtime("Failed to send typing notification"));
      }
      var typingMessage := new ChatMessage.Build(None, Some(sender.value.id), MessageType.Typing);
      store.outbox := store.outbox + [TypingPublished(typingMessage.Data())];
      return Ok(());
    }

    /**
     * `markMessagesAsRead` as written: the unread query fails on every call,
     * so the call fails with nothing marked, saved or published.
     */
    method MarkMessagesAsRead(bugId: Id, userId: Id) returns (r: Result<()>)
      requires Valid()
      ensures r == Err(Runtime(MarkFailure))
    {
      var outcome := MarkAsWritten(Snapshot(store.messages), bugId, userId);
      r := if outcome.Err? then Err(outcome.error) else Ok(());
    }

    /**
     * `markMessagesAsRead` as intended, with the query given its JPQL meaning:
     * every selected message gets the user in its read-by set, all others are
     * untouched, and the marked messages are published as read receipts
     * unless there were none.
     */
    method MarkMessagesAsReadIntended(bugId: Id, userId: Id)
      requires Valid()
      modifies store`outbox, store.messages
      ensures Valid()
      ensures store.messages == old(store.messages)
      ensures Snapshot(store.messages) == MarkSelected(old(Snapshot(store.messages)), bugId, userId)
      ensures Receipts(old(Snapshot(store.messages)), bugId, userId) == [] ==> store.outbox == old(store.outbox)
      ensures Receipts(old(Snapshot(store.messages)), bugId, userId) != [] ==>
        store.outbox == old(store.outbox) + [ReadReceiptsPublished(Receipts(old(Snapshot(store.messages)), bugId, userId))]
    {
      var receipts := MarkAll(store.messages, bugId, userId);
      if receipts != [] {
        store.outbox := store.outbox + [ReadReceiptsPublished(receipts)];
      }
    }
  }
}
