/**
 * The in-app notification consumer: one stored notification and one
 * web-socket push per recipient of a queued message.
 */
module NotificationConsumer {

  import opened Base
  import opened Text
  import opened Entities
  import opened Db

  /** `value.toString()` for the value kinds a metadata map holds. */
  function ValueString(v: MetaValue): (r: string)
    ensures v.Str? ==> r == v.s
    ensures v.Number? ==> r == IntToString(v.n)
    ensures v.Flag? ==> r == (if v.b then "true" else "false")
  {
    match v
    case Str(s) => s
    case Number(n) => IntToString(n)
    case Flag(b) => if b then "true" else "false"
  }

  /** The converted metadata: no map gives an empty map; otherwise the same keys, each value as text, null kept null. */
  function Stringified(original: Option<map<string, Option<MetaValue>>>): (r: map<string, Option<string>>)
    ensures original.None? ==> r == map[]
    ensures original.Some? ==> r.Keys == original.value.Keys
    ensures original.Some? ==> forall k :: k in r ==>
      (original.value[k].None? ==> r[k].None?) && (original.value[k].Some? ==> r[k] == Some(ValueString(original.value[k].value)))
  {
    if original.None? then map[]
    else
      var md := original.value;
      map k | k in md :: if md[k].None? then None else Some(ValueString(md[k].value))
  }

  /** A numeric metadata value in the 32-bit range reads back as the same number. */
  lemma {:induction false} NumberReadsBack(original: map<string, Option<MetaValue>>, k: string)
    requires k in original && original[k].Some? && original[k].value.Number?
    requires IntMin <= original[k].value.n <= IntMax
    ensures ParseInt(Stringified(Some(original))[k].value) == Some(original[k].value.n)
  {
    ParseIntOfIntToString(original[k].value.n);
  }

  /** `convertMetadata`, filling a fresh map entry by entry. */
  method ConvertMetadata(original: Option<map<string, Option<MetaValue>>>) returns (r: map<string, Option<string>>)
    ensures r == Stringified(original)
  {
    if original.None? {
      return map[];
    }
    var md := original.value;
    r := map[];
    var keys := md.Keys;
    while keys != {}
      invariant keys <= md.Keys
      invariant r.Keys == md.Keys - keys
      invariant forall k :: k in r ==> r[k] == (if md[k].None? then None else Some(ValueString(md[k].value)))
      decreases |keys|
    {
      var k :| k in keys;
      var value := md[k];
      r := r[k := if value.None? then None else Some(ValueString(value.value))];
      keys := keys - {k};
    }
  }

  /** The notification stored for one recipient. */
  function Record(message: NotificationMessage, userId: string, id: nat): (n: UserNotification)
    ensures n.id == id && n.userId == userId && !n.read
    ensures n.notificationType == message.notificationType && n.title == message.title && n.content == message.content
    ensures n.metadata == Stringified(message.metadata)
  {
    UserNotification(id, userId, message.notificationType, message.title, message.content, false, Stringified(message.metadata))
  }

  /** The pushed payload: the saved notification's id and fields. */
  function Payload(n: UserNotification): (p: NotificationPayload)
    ensures p.id == n.id && p.isRead == n.read && p.metadata == n.metadata
    ensures p.notificationType == n.notificationType && p.title == n.title && p.content == n.content
  {
    NotificationPayload(n.id, n.notificationType, n.title, n.content, n.read, n.metadata)
  }

  /** The notifications stored for the first `count` recipients, numbered from `firstId`. */
  function NewRecords(message: NotificationMessage, firstId: nat, count: nat): (r: map<nat, UserNotification>)
    requires count <= |message.recipients|
    ensures forall id :: id in r <==> firstId <= id < firstId + count
    ensures forall id :: id in r ==> r[id] == Record(message, message.recipients[id - firstId], id)
  {
    if count == 0 then map[]
    else NewRecords(message, firstId, count - 1)[firstId + count - 1 := Record(message, message.recipients[count - 1], firstId + count - 1)]
  }

  /** The pushes for the first `count` recipients, in recipient order. */
  function Pushes(message: NotificationMessage, firstId: nat, count: nat): (r: seq<Event>)
    requires count <= |message.recipients|
    ensures |r| == count
    ensures forall j :: 0 <= j < count ==> r[j] == NotificationPushed(message.recipients[j], Payload(Record(message, message.recipients[j], firstId + j)))
  {
    if count == 0 then []
    else
      var j := count - 1;
      Pushes(message, firstId, j) + [NotificationPushed(message.recipients[j], Payload(Record(message, message.recipients[j], firstId + j)))]
  }

  /** The table after the first `count` recipients were served, entry by entry. */
  function Consumed(earlier: map<nat, UserNotification>, message: NotificationMessage, firstId: nat, count: nat): (r: map<nat, UserNotification>)
    requires count <= |message.recipients|
  {
    if count == 0 then earlier
    else Consumed(earlier, message, firstId, count - 1)[firstId + count - 1 := Record(message, message.recipients[count - 1], firstId + count - 1)]
  }

  /** Serving the recipients one by one adds exactly the new records (a later entry wins over an earlier one). */
  lemma {:induction false} ConsumedIsUnion(earlier: map<nat, UserNotification>, message: NotificationMessage, firstId: nat, count: nat)
    requires count <= |message.recipients|
    ensures Consumed(earlier, message, firstId, count) == earlier + NewRecords(message, firstId, count)
  {
    if count == 0 {
      assert earlier + NewRecords(message, firstId, 0) == earlier;
    } else {
      ConsumedIsUnion(earlier, message, firstId, count - 1);
      var prev := NewRecords(message, firstId, count - 1);
      var k := firstId + count - 1;
      var n := Record(message, message.recipients[count - 1], k);
      assert NewRecords(message, firstId, count) == prev[k := n];
      UnionUpdate(earlier, prev, k, n);
    }
  }

  /** The outbox after the first `count` recipients were pushed to, push by push. */
  function Published(outbox: seq<Event>, message: NotificationMessage, firstId: nat, count: nat): (r: seq<Event>)
    requires count <= |message.recipients|
  {
    if count == 0 then outbox
    else
      var j := count - 1;
      Published(outbox, message, firstId, j) + [NotificationPushed(message.recipients[j], Payload(Record(message, message.recipients[j], firstId + j)))]
  }

  /** Pushing to the recipients one by one appends exactly their pushes. */
  lemma {:induction false} PublishedIsAppend(outbox: seq<Event>, message: NotificationMessage, firstId: nat, count: nat)
    requires count <= |message.recipients|
    ensures Published(outbox, message, firstId, count) == outbox + Pushes(message, firstId, count)
  {
    if count == 0 {
      assert outbox + Pushes(message, firstId, 0) == outbox;
    } else {
      PublishedIsAppend(outbox, message, firstId, count - 1);
      var j := count - 1;
      var e := NotificationPushed(message.recipients[j], Payload(Record(message, message.recipients[j], firstId + j)));
      assert Pushes(message, firstId, count) == Pushes(message, firstId, j) + [e];
      assert (outbox + Pushes(message, firstId, j)) + [e] == outbox + (Pushes(message, firstId, j) + [e]);
    }
  }

  lemma {:induction false} UnionUpdate(a: map<nat, UserNotification>, b: map<nat, UserNotification>, k: nat, v: UserNotification)
    ensures (a + b)[k := v] == a + b[k := v]
  {
  }

  /**
   * `consumeInAppNotification`: for each recipient in order, a notification
   * with the next identity value is stored and pushed to that recipient.
   */
  method ConsumeInAppNotification(store: Store, message: NotificationMessage)
    requires store.Valid()
    modifies store`notifications, store`nextNotificationId, store`outbox
    ensures store.Valid()
    ensures store.nextNotificationId == old(store.nextNotificationId) + |message.recipients|
    ensures store.notifications == old(store.notifications) + NewRecords(message, old(store.nextNotificationId), |message.recipients|)
    ensures store.outbox == old(store.outbox) + Pushes(message, old(store.nextNotificationId), |message.recipients|)
  {
    ghost var firstId := store.nextNotificationId;
    ghost var earlier := store.notifications;
    var i := 0;
    while i < |message.recipients|
      invariant 0 <= i <= |message.recipients|
      invariant NotificationsOk(store.notifications, store.nextNotificationId)
      invariant store.nextNotificationId == firstId + i
      invariant store.notifications == Consumed(earlier, message, firstId, i)
      invariant store.outbox == Published(old(store.outbox), message, firstId, i)
    {
      NotifyRecipient(store, message, i, earlier, old(store.outbox), firstId);
      i := i + 1;
    }
    ConsumedIsUnion(earlier, message, firstId, i);
    PublishedIsAppend(old(store.outbox), message, firstId, i);
  }

  /**
   * The body of the recipient loop for the `i`-th recipient: store the
   * notification under the next identity value, then push it. In terms of
   * the loop, the first `i` recipients served become the first `i + 1`.
   */
  method NotifyRecipient(store: Store, message: NotificationMessage, i: nat,
                         ghost earlier: map<nat, UserNotification>, ghost original: seq<Event>, ghost firstId: nat)
    requires NotificationsOk(store.notifications, store.nextNotificationId) && i < |message.recipients|
    requires store.nextNotificationId == firstId + i
    requires store.notifications == Consumed(earlier, message, firstId, i)
    requires store.outbox == Published(original, message, firstId, i)
    modifies store`notifications, store`nextNotificationId, store`outbox
    ensures NotificationsOk(store.notifications, store.nextNotificationId)
    ensures store.nextNotificationId == firstId + i + 1
    ensures store.notifications == Consumed(earlier, message, firstId, i + 1)
    ensures store.outbox == Published(original, message, firstId, i + 1)
  {
    var userId := message.recipients[i];
    var metadata := ConvertMetadata(message.metadata);
    var saved := UserNotification(store.nextNotificationId, userId, message.notificationType, message.title, message.content, false, metadata);
    store.SaveNotification(saved);
    store.outbox := store.outbox + [NotificationPushed(userId, Payload(saved))];
  }

  /** Each recipient owns exactly the notification stored under its position, unread and carrying the message. */
  lemma {:induction false} EachRecipientNotified(message: NotificationMessage, firstId: nat, j: nat)
    requires j < |message.recipients|
    ensures var r := NewRecords(message, firstId, |message.recipients|);
      firstId + j in r && r[firstId + j].userId == message.recipients[j] && !r[firstId + j].read
      && r[firstId + j].title == message.title && r[firstId + j].content == message.content
  {
  }

  /** Notifications stored earlier are untouched, since the new ones take fresh identity values. */
  lemma {:induction false} EarlierNotificationsKept(notifications: map<nat, UserNotification>, nextId: nat, message: NotificationMessage)
    requires NotificationsOk(notifications, nextId)
    ensures forall id :: id in notifications ==> (notifications + NewRecords(message, nextId, |message.recipients|))[id] == notifications[id]
  {
  }
}
