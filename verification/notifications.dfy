/** `NotificationService` over an in-memory notification store: plain creation,
    and the de-duplicating chat notification that keeps at most one unread
    CHAT_MESSAGE per user and ride. `now` stands for the clock. */
module Notifications {
  import opened Wrappers
  import opened Seqs

  /** A notification row; `kind` is the Java `type` column. */
  datatype Notification = Notification(
    userId: int,
    message: string,
    link: string,
    kind: string,
    rideId: Option<int>,
    isRead: bool,
    createdAt: int)

  const ChatMessage: string := "CHAT_MESSAGE"

  /** `createNotification`: one new unread row at the end of the store. */
  function CreateNotification(store: seq<Notification>, userId: int, message: string, link: string,
                              kind: string, rideId: Option<int>, now: int): (r: seq<Notification>)
    ensures |r| == |store| + 1 && r[..|store|] == store
    ensures var n := r[|store|];
      n.userId == userId && n.message == message && n.link == link && n.kind == kind &&
      n.rideId == rideId && !n.isRead
  {
    store + [Notification(userId, message, link, kind, rideId, false, now)]
  }

  predicate IsUnreadChat(n: Notification) {
    n.kind == ChatMessage && !n.isRead
  }

  /** Two unread chat notifications of the same user about the same ride. */
  predicate SameUnreadChat(a: Notification, b: Notification) {
    IsUnreadChat(a) && IsUnreadChat(b) && a.userId == b.userId && a.rideId == b.rideId
  }

  /** At most one unread CHAT_MESSAGE per (user, ride). */
  predicate AtMostOneUnreadChat(store: seq<Notification>) {
    forall i, j | 0 <= i < |store| && 0 <= j < |store| && i != j :: !SameUnreadChat(store[i], store[j])
  }

  function UnreadChatFor(userId: int, rideId: int): Notification -> bool {
    (n: Notification) => IsUnreadChat(n) && n.userId == userId && n.rideId == Some(rideId)
  }

  /** `createOrUpdateChatNotification` as it reaches the store. When an unread chat
      notification of this user and ride exists, the service sets its `createdAt`
      and saves it; but that column is mapped `updatable = false`, so the update
      never writes it and the stored row stays as it was. Otherwise one new unread
      CHAT_MESSAGE row is added. */
  function CreateOrUpdateChatNotification(store: seq<Notification>, userId: int, message: string,
                                          link: string, rideId: int, now: int): (r: seq<Notification>)
    ensures First(store, UnreadChatFor(userId, rideId)).Some? ==> r == store
    ensures First(store, UnreadChatFor(userId, rideId)).None? ==>
      r == CreateNotification(store, userId, message, link, ChatMessage, Some(rideId), now)
  {
    match First(store, UnreadChatFor(userId, rideId))
    case Some(_) => store
    case None => CreateNotification(store, userId, message, link, ChatMessage, Some(rideId), now)
  }

  /** The bump is lost: an unread chat row created at time 0 still carries time 0
      after a new chat message at time 5. */
  lemma ChatBumpIsLost()
    ensures var row := Notification(1, "new message", "/ride/7", ChatMessage, Some(7), false, 0);
      var r := CreateOrUpdateChatNotification([row], 1, "another message", "/ride/7", 7, 5);
      |r| == 1 && r[0].createdAt == 0 && r[0].createdAt != 5
  {
    var row := Notification(1, "new message", "/ride/7", ChatMessage, Some(7), false, 0);
    assert UnreadChatFor(1, 7)(row);
    assert First([row], UnreadChatFor(1, 7)) == Some(0);
  }

  /** The evidently intended `createOrUpdateChatNotification`: bump the first unread
      chat notification of this user and ride to `now`, or create one when there is
      none. */
  function CreateOrBumpChatNotification(store: seq<Notification>, userId: int, message: string,
                                        link: string, rideId: int, now: int): (r: seq<Notification>)
    ensures First(store, UnreadChatFor(userId, rideId)).Some? ==>
      var k := First(store, UnreadChatFor(userId, rideId)).value;
      && |r| == |store|
      && (forall i :: 0 <= i < |store| && i != k ==> r[i] == store[i])
      && r[k].createdAt == now
      && r[k] == store[k].(createdAt := now)
    ensures First(store, UnreadChatFor(userId, rideId)).None? ==>
      r == CreateNotification(store, userId, message, link, ChatMessage, Some(rideId), now)
  {
    match First(store, UnreadChatFor(userId, rideId))
    case Some(k) => store[k := store[k].(createdAt := now)]
    case None => CreateNotification(store, userId, message, link, ChatMessage, Some(rideId), now)
  }

  /** Both versions agree except on the bumped timestamp: whatever the bump, the
      stored rows match the intended ones field for field apart from `createdAt`. */
  lemma ChatVersionsDifferOnlyInTimestamp(store: seq<Notification>, userId: int, message: string,
                                          link: string, rideId: int, now: int)
    ensures var written := CreateOrUpdateChatNotification(store, userId, message, link, rideId, now);
      var intended := CreateOrBumpChatNotification(store, userId, message, link, rideId, now);
      |written| == |intended| &&
      forall i :: 0 <= i < |written| ==> written[i].(createdAt := 0) == intended[i].(createdAt := 0)
  {
  }

  /** The chat notification, as written and as intended, keeps the store free of
      duplicate unread chat rows, and afterwards exactly one unread chat row exists
      for this user and ride. */
  lemma ChatNotificationPreservesUniqueness(store: seq<Notification>, userId: int, message: string,
                                            link: string, rideId: int, now: int)
    requires AtMostOneUnreadChat(store)
    ensures var r := CreateOrBumpChatNotification(store, userId, message, link, rideId, now);
      && AtMostOneUnreadChat(r)
      && exists k :: 0 <= k < |r| && UnreadChatFor(userId, rideId)(r[k])
    ensures var r := CreateOrUpdateChatNotification(store, userId, message, link, rideId, now);
      && AtMostOneUnreadChat(r)
      && exists k :: 0 <= k < |r| && UnreadChatFor(userId, rideId)(r[k])
  {
    var written := CreateOrUpdateChatNotification(store, userId, message, link, rideId, now);
    var r := CreateOrBumpChatNotification(store, userId, message, link, rideId, now);
    var found := First(store, UnreadChatFor(userId, rideId));
    if found.Some? {
      var k := found.value;
      forall i, j | 0 <= i < |r| && 0 <= j < |r| && i != j
        ensures !SameUnreadChat(r[i], r[j])
      {
        assert SameUnreadChat(r[i], r[j]) ==> SameUnreadChat(store[i], store[j]);
      }
      assert UnreadChatFor(userId, rideId)(r[k]);
      assert written == store && UnreadChatFor(userId, rideId)(written[k]);
    } else {
      var n := |store|;
      forall i, j | 0 <= i < |r| && 0 <= j < |r| && i != j
        ensures !SameUnreadChat(r[i], r[j])
      {
        if i == n {
          assert !UnreadChatFor(userId, rideId)(store[j]);
        } else if j == n {
          assert !UnreadChatFor(userId, rideId)(store[i]);
        } else {
          assert r[i] == store[i] && r[j] == store[j];
        }
      }
      assert UnreadChatFor(userId, rideId)(r[n]);
      assert written == r;
    }
  }
}
