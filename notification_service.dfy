/**
 * The notification service: queueing a notification, the unread count, and
 * marking stored in-app notifications as read.
 */
module NotificationService {

  import opened Base
  import opened Entities
  import opened Db

  /** The ids of a user's notifications that are not yet read. */
  function UnreadIds(notifications: map<nat, UserNotification>, userId: string): (r: set<nat>)
    ensures forall id :: id in r <==> id in notifications && notifications[id].userId == userId && !notifications[id].read
  {
    set id | id in notifications && notifications[id].userId == userId && !notifications[id].read
  }

  /** `getUnreadCount` (`countByUserIdAndReadFalse`). */
  function GetUnreadCount(notifications: map<nat, UserNotification>, userId: string): (r: nat)
    ensures r == 0 <==> forall id :: id in notifications && notifications[id].userId == userId ==> notifications[id].read
    ensures r <= |notifications|
  {
    var ids := UnreadIds(notifications, userId);
    assert ids <= notifications.Keys;
    SubsetSize(ids, notifications.Keys);
    |ids|
  }

  /** The table after `markAsRead(id)`: that notification is read; an unknown id changes nothing. */
  function WithRead(notifications: map<nat, UserNotification>, id: nat): (r: map<nat, UserNotification>)
    ensures r.Keys == notifications.Keys
    ensures id in r ==> r[id] == notifications[id].(read := true)
    ensures forall k :: k in r && k != id ==> r[k] == notifications[k]
  {
    if id in notifications then notifications[id := notifications[id].(read := true)] else notifications
  }

  /** The table after `markAllAsRead(userId)`: the user's unread notifications become read, all others stay. */
  function AllReadFor(notifications: map<nat, UserNotification>, userId: string): (r: map<nat, UserNotification>)
    ensures r.Keys == notifications.Keys
    ensures forall k :: k in r && notifications[k].userId == userId ==> r[k] == notifications[k].(read := true)
    ensures forall k :: k in r && notifications[k].userId != userId ==> r[k] == notifications[k]
  {
    map k | k in notifications ::
      if notifications[k].userId == userId && !notifications[k].read then notifications[k].(read := true) else notifications[k]
  }

  /** Reading a notification twice is reading it once. */
  lemma {:induction false} WithReadIdempotent(notifications: map<nat, UserNotification>, id: nat)
    ensures WithRead(WithRead(notifications, id), id) == WithRead(notifications, id)
  {
  }

  /** After `markAllAsRead(u)` the unread count of u is zero. */
  lemma {:induction false} AllReadClearsCount(notifications: map<nat, UserNotification>, userId: string)
    ensures GetUnreadCount(AllReadFor(notifications, userId), userId) == 0
  {
    var r := AllReadFor(notifications, userId);
    forall id | id in r && r[id].userId == userId ensures r[id].read {
      assert notifications[id].userId == userId;
    }
  }

  /** After `markAllAsRead(u)` the unread count of every other user is what it was. */
  lemma {:induction false} AllReadKeepsOtherCounts(notifications: map<nat, UserNotification>, userId: string, other: string)
    requires other != userId
    ensures GetUnreadCount(AllReadFor(notifications, userId), other) == GetUnreadCount(notifications, other)
  {
    var r := AllReadFor(notifications, userId);
    forall id ensures id in UnreadIds(r, other) <==> id in UnreadIds(notifications, other) {
      if id in notifications && notifications[id].userId == other {
        assert r[id] == notifications[id];
      }
    }
    assert UnreadIds(r, other) == UnreadIds(notifications, other);
  }

  /** Reading one of your own unread notifications lowers your count by exactly one. */
  lemma {:induction false} WithReadDecrementsCount(notifications: map<nat, UserNotification>, id: nat)
    requires id in notifications && !notifications[id].read
    ensures GetUnreadCount(WithRead(notifications, id), notifications[id].userId)
         == GetUnreadCount(notifications, notifications[id].userId) - 1
  {
    var u := notifications[id].userId;
    var r := WithRead(notifications, id);
    assert UnreadIds(r, u) == UnreadIds(notifications, u) - {id} by {
      forall k ensures k in UnreadIds(r, u) <==> k in UnreadIds(notifications, u) - {id} {
        if k in notifications && k != id {
          assert r[k] == notifications[k];
        }
      }
    }
    assert id in UnreadIds(notifications, u);
  }

  /** `sendNotification`: the message is queued on the in-app exchange. */
  method SendNotification(store: Store, message: NotificationMessage)
    modifies store`outbox
    ensures store.outbox == old(store.outbox) + [NotificationQueued(message)]
  {
    store.outbox := store.outbox + [NotificationQueued(message)];
  }

  /** `markAsRead(notificationId)`. */
  method MarkAsRead(store: Store, notificationId: nat)
    requires store.Valid()
    modifies store`notifications
    ensures store.Valid()
    ensures store.notifications == WithRead(old(store.notifications), notificationId)
  {
    if notificationId in store.notifications {
      var n := store.notifications[notificationId];
      store.notifications := store.notifications[notificationId := n.(read := true)];
    }
  }

  /** `markAllAsRead(userId)`: one bulk update. */
  method MarkAllAsRead(store: Store, userId: string)
    requires store.Valid()
    modifies store`notifications
    ensures store.Valid()
    ensures store.notifications == AllReadFor(old(store.notifications), userId)
  {
    var ns := store.notifications;
    store.notifications := map k | k in ns ::
      if ns[k].userId == userId && !ns[k].read then ns[k].(read := true) else ns[k];
  }
}
