// components/NotificationDropdown.tsx: the optimistic mark-as-read, the
// unread counter and the badge. Polling and the request are not modelled.

module NotificationDropdown {
  import opened Common

  datatype Notification = Notification(id: int, title: string, text: string, isRead: bool)

  /** `notifications.map(n => n.id === id ? { ...n, is_read: true } : n)` */
  function MarkedRead(ns: seq<Notification>, id: int): (r: seq<Notification>)
    ensures |r| == |ns|
    ensures forall i :: 0 <= i < |r| ==> r[i] == if ns[i].id == id then ns[i].(isRead := true) else ns[i]
  {
    seq(|ns|, i requires 0 <= i < |ns| => if ns[i].id == id then ns[i].(isRead := true) else ns[i])
  }

  /** The number of unread notifications in a list. */
  function CountUnread(ns: seq<Notification>): (r: nat)
    ensures r <= |ns|
  {
    if ns == [] then 0 else (if ns[0].isRead then 0 else 1) + CountUnread(ns[1..])
  }

  /** `Math.max(0, prev - 1)` */
  function Decremented(n: int): (r: int)
    ensures r >= 0
    ensures n >= 1 ==> r == n - 1
    ensures n <= 0 ==> r == 0
  {
    if n - 1 > 0 then n - 1 else 0
  }

  /** With unique ids, marking one unread notification as read lowers the
      number of unread ones by exactly one, so a counter that matched the
      list keeps matching it. */
  lemma {:induction false} MarkOneUnread(ns: seq<Notification>, k: nat)
    requires k < |ns| && !ns[k].isRead
    requires forall i, j :: 0 <= i < j < |ns| ==> ns[i].id != ns[j].id
    ensures CountUnread(MarkedRead(ns, ns[k].id)) == CountUnread(ns) - 1
    decreases |ns|
  {
    var id := ns[k].id;
    var r := MarkedRead(ns, id);
    assert r[1..] == MarkedRead(ns[1..], id);
    if k == 0 {
      assert forall i :: 0 <= i < |ns[1..]| ==> ns[1..][i].id != id;
      MarkNoneMatching(ns[1..], id);
    } else {
      MarkOneUnread(ns[1..], k - 1);
    }
  }

  /** Marking an id no notification has changes nothing. */
  lemma {:induction false} MarkNoneMatching(ns: seq<Notification>, id: int)
    requires forall i :: 0 <= i < |ns| ==> ns[i].id != id
    ensures MarkedRead(ns, id) == ns
  {
  }

  /** The mark button is offered only for an unread notification. */
  predicate OffersMarkButton(n: Notification) {
    !n.isRead
  }

  class Dropdown {
    var notifications: seq<Notification>
    var unreadCount: int

    constructor ()
      ensures notifications == [] && unreadCount == 0
    {
      notifications := [];
      unreadCount := 0;
    }

    /** The bell shows the counter badge. */
    predicate ShowsBadge()
      reads this
    {
      unreadCount > 0
    }

    /** The summary fetched from the server replaces both fields. */
    method Fetched(unread: nat, recent: seq<Notification>)
      modifies this
      ensures notifications == recent && unreadCount == unread
    {
      unreadCount := unread;
      notifications := recent;
    }

    /** `handleMarkAsRead` (:39-42): only that notification becomes read,
        and the counter drops by one without going below zero. */
    method MarkAsRead(id: int)
      modifies this
      ensures notifications == MarkedRead(old(notifications), id)
      ensures unreadCount == Decremented(old(unreadCount))
      ensures unreadCount >= 0
    {
      notifications := MarkedRead(notifications, id);
      unreadCount := Decremented(unreadCount);
    }
  }
}
