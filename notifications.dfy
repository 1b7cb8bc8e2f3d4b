/**
 * The toast queue of the client (client/src/components/NotificationManager.jsx).
 * `notifications` is React state that `addNotification` (append) and
 * `removeNotification` (filter by id) replace; only the first three entries
 * are rendered. The source draws ids from `Date.now() + Math.random()`;
 * here an id is an abstract number supplied by the caller.
 */
module Notifications {
  import opened Common
  import opened Filtering

  type NotificationId = nat

  datatype Notification = Notification(id: NotificationId, message: string, kind: string, duration: int)

  const DefaultKind: string := "info"
  const DefaultDuration: int := 3000
  /** How many notifications are on screen at once: `slice(0, 3)`. */
  const WindowSize: nat := 3

  /**
   * The entry `addNotification(message, type, duration)` builds; a missing
   * (`undefined`) `type` or `duration` takes its default.
   */
  function MakeNotification(id: NotificationId, message: string, kind: Option<string>,
                            duration: Option<int>): (n: Notification)
    ensures n.id == id && n.message == message
    ensures kind.None? ==> n.kind == DefaultKind
    ensures kind.Some? ==> n.kind == kind.value
    ensures duration.None? ==> n.duration == DefaultDuration
    ensures duration.Some? ==> n.duration == duration.value
  {
    Notification(id, message,
                 match kind case Some(k) => k case None => DefaultKind,
                 match duration case Some(d) => d case None => DefaultDuration)
  }

  /** `prev.filter((notification) => notification.id !== id)` */
  function WithoutId(s: seq<Notification>, id: NotificationId): (r: seq<Notification>)
    ensures forall i :: 0 <= i < |r| ==> r[i].id != id && r[i] in s
    ensures forall i :: 0 <= i < |s| && s[i].id != id ==> s[i] in r
    ensures (forall i :: 0 <= i < |s| ==> s[i].id != id) ==> r == s
  {
    Filter(s, (n: Notification) => n.id != id)
  }

  /** `notifications.slice(0, 3)`: the notifications on screen. */
  function Window(s: seq<Notification>): (r: seq<Notification>)
    ensures |r| <= WindowSize && |r| <= |s|
    ensures r == s[..|r|]
    ensures |r| < WindowSize ==> r == s
  {
    if |s| <= WindowSize then s else s[..WindowSize]
  }

  /** Removal works piece by piece, so the survivors keep their order. */
  lemma WithoutIdConcat(a: seq<Notification>, b: seq<Notification>, id: NotificationId)
    ensures WithoutId(a + b, id) == WithoutId(a, id) + WithoutId(b, id)
  {
    FilterConcat(a, b, (n: Notification) => n.id != id);
  }

  /** Removing a just-added notification whose id was new restores the queue. */
  lemma AddThenRemove(s: seq<Notification>, n: Notification)
    requires forall i :: 0 <= i < |s| ==> s[i].id != n.id
    ensures WithoutId(s + [n], n.id) == s
  {
    WithoutIdConcat(s, [n], n.id);
    assert WithoutId([n], n.id) == [];
  }

  /** A new notification waits behind a full window: what is on screen stays. */
  lemma AddBehindFullWindow(s: seq<Notification>, n: Notification)
    requires |s| >= WindowSize
    ensures Window(s + [n]) == Window(s)
  {
    assert (s + [n])[..WindowSize] == s[..WindowSize];
  }

  /**
   * Closing the first of several notifications with distinct ids slides the
   * next one in: the window becomes the second to fourth entries.
   */
  lemma CloseFirstSlidesWindow(s: seq<Notification>)
    requires |s| > WindowSize
    requires forall i :: 1 <= i < |s| ==> s[i].id != s[0].id
    ensures Window(WithoutId(s, s[0].id)) == s[1..WindowSize + 1]
  {
    var id := s[0].id;
    assert s == [s[0]] + s[1..];
    WithoutIdConcat([s[0]], s[1..], id);
    assert WithoutId([s[0]], id) == [];
    assert WithoutId(s[1..], id) == s[1..];
  }

  /** The component's held state. */
  class NotificationManager {
    var notifications: seq<Notification>

    constructor ()
      ensures notifications == []
    {
      notifications := [];
    }

    /** `addNotification`: exactly one entry more, at the end. */
    method AddNotification(id: NotificationId, message: string, kind: Option<string>, duration: Option<int>)
      modifies this
      ensures notifications == old(notifications) + [MakeNotification(id, message, kind, duration)]
    {
      var notification := MakeNotification(id, message, kind, duration);
      notifications := notifications + [notification];
    }

    /** `removeNotification`: every entry with the id goes, the rest stay in order. */
    method RemoveNotification(id: NotificationId)
      modifies this
      ensures notifications == WithoutId(old(notifications), id)
    {
      notifications := WithoutId(notifications, id);
    }

    /** What the component renders. */
    function Rendered(): (r: seq<Notification>)
      reads this
      ensures |r| <= WindowSize && |r| <= |notifications| && r == notifications[..|r|]
      ensures |notifications| >= WindowSize ==> |r| == WindowSize
      ensures |notifications| < WindowSize ==> r == notifications
    {
      Window(notifications)
    }
  }
}
