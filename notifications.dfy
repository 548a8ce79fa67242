/** The notifications page of app/routes/dashboard.notifications.tsx: its authenticated loader
    with the sample notifications, the relative times it shows, and its three counters. */
module Notifications {
  import opened Wrappers
  import opened Text
  import opened Http
  import Auth

  /** A notification; `kind` is its `type` ("message", "alert", "system"), and `timestamp` is
      in milliseconds since the epoch. */
  datatype Notification = Notification(id: string, title: string, message: string, kind: string,
                                       read: bool, timestamp: int)

  const MinuteMs: int := 1000 * 60

  /** Whole minutes elapsed, rounded down (so a timestamp in the future gives a negative count). */
  function DiffInMinutes(now: int, timestamp: int): (n: int)
    ensures n * MinuteMs <= now - timestamp < (n + 1) * MinuteMs
  {
    (now - timestamp) / MinuteMs
  }

  /** How long ago, in the largest unit that fits: minutes below an hour, hours below a day,
      days otherwise. */
  function FormatTimeAgo(now: int, timestamp: int): (r: string)
    ensures DiffInMinutes(now, timestamp) < 60 ==> r == IntToString(DiffInMinutes(now, timestamp)) + "m ago"
  {
    var diffInMinutes := DiffInMinutes(now, timestamp);
    if diffInMinutes < 60 then IntToString(diffInMinutes) + "m ago"
    else if diffInMinutes < 1440 then IntToString(diffInMinutes / 60) + "h ago"
    else IntToString(diffInMinutes / 1440) + "d ago"
  }

  /** Between one hour and one day, the text gives the whole hours elapsed, a count from 1 to 23. */
  lemma HoursAgo(now: int, timestamp: int)
    requires 60 * MinuteMs <= now - timestamp < 1440 * MinuteMs
    ensures exists h: nat ::
      && 1 <= h <= 23
      && h * 60 * MinuteMs <= now - timestamp < (h + 1) * 60 * MinuteMs
      && FormatTimeAgo(now, timestamp) == NatToString(h) + "h ago"
  {
    var n := DiffInMinutes(now, timestamp);
    var h := n / 60;
    assert 60 <= n < 1440;
    assert h * 60 <= n < (h + 1) * 60;
    assert h * 60 * MinuteMs <= n * MinuteMs;
    assert (n + 1) * MinuteMs <= (h + 1) * 60 * MinuteMs;
    assert FormatTimeAgo(now, timestamp) == NatToString(h) + "h ago";
  }

  /** From one day on, the text gives the whole days elapsed, at least 1. */
  lemma DaysAgo(now: int, timestamp: int)
    requires now - timestamp >= 1440 * MinuteMs
    ensures exists d: nat ::
      && 1 <= d
      && d * 1440 * MinuteMs <= now - timestamp < (d + 1) * 1440 * MinuteMs
      && FormatTimeAgo(now, timestamp) == NatToString(d) + "d ago"
  {
    var n := DiffInMinutes(now, timestamp);
    var d := n / 1440;
    assert n >= 1440;
    assert d * 1440 <= n < (d + 1) * 1440;
    assert d * 1440 * MinuteMs <= n * MinuteMs;
    assert (n + 1) * MinuteMs <= (d + 1) * 1440 * MinuteMs;
    assert FormatTimeAgo(now, timestamp) == NatToString(d) + "d ago";
  }

  /** The number of notifications satisfying `p`. */
  function CountWhere(ns: seq<Notification>, p: Notification -> bool): (c: nat)
    ensures c <= |ns|
    ensures c == 0 <==> forall i :: 0 <= i < |ns| ==> !p(ns[i])
    ensures c == |ns| <==> forall i :: 0 <= i < |ns| ==> p(ns[i])
  {
    if ns == [] then 0
    else
      var rest := CountWhere(ns[1..], p);
      assert forall i :: 1 <= i < |ns| ==> ns[i] == ns[1..][i - 1];
      (if p(ns[0]) then 1 else 0) + rest
  }

  /** When `q` is the negation of `p`, every notification is counted by exactly one of them. */
  lemma {:induction false} CountComplement(ns: seq<Notification>, p: Notification -> bool, q: Notification -> bool)
    requires forall n :: q(n) == !p(n)
    ensures CountWhere(ns, p) + CountWhere(ns, q) == |ns|
  {
    if ns != [] {
      CountComplement(ns[1..], p, q);
    }
  }

  predicate IsUnread(n: Notification) { !n.read }
  predicate IsRead(n: Notification) { n.read }
  predicate IsAlert(n: Notification) { n.kind == "alert" }

  /** The "Unread Notifications" counter. */
  function UnreadCount(ns: seq<Notification>): (c: nat)
    ensures c <= |ns|
    ensures c == 0 <==> forall i :: 0 <= i < |ns| ==> ns[i].read
  {
    CountWhere(ns, IsUnread)
  }

  /** The "High Priority" counter: the alerts. */
  function HighPriorityCount(ns: seq<Notification>): (c: nat)
    ensures c <= |ns|
    ensures c == 0 <==> forall i :: 0 <= i < |ns| ==> ns[i].kind != "alert"
  {
    CountWhere(ns, IsAlert)
  }

  /** The unread and the read notifications make up the whole list. */
  lemma UnreadAndReadMakeTotal(ns: seq<Notification>)
    ensures UnreadCount(ns) + CountWhere(ns, IsRead) == |ns|
  {
    CountComplement(ns, IsUnread, IsRead);
  }

  /** The sample notifications the loader serves: a message now, an alert half an hour ago and
      a read system notice two hours ago. */
  function SampleNotifications(now: int): seq<Notification>
  {
    [Notification("1", "New message from customer", "John Doe sent a message in the support channel",
                  "message", false, now),
     Notification("2", "Agent performance alert", "AI Agent response time exceeded threshold",
                  "alert", false, now - 1000 * 60 * 30),
     Notification("3", "System maintenance scheduled", "Scheduled maintenance on Sunday 2AM-4AM EST",
                  "system", true, now - 1000 * 60 * 60 * 2)]
  }

  /** The loader: the sample notifications for a visitor with a usable session, else the
      redirect to the login page that carries the way back. */
  function Loader(request: Request, now: int): (r: Outcome<seq<Notification>>)
    ensures r.Ok? <==> Auth.GetUserSession(request, now).Some?
    ensures r.Ok? ==> r.value == SampleNotifications(now)
    ensures r.Threw? ==> r.response == Auth.RequireAuth(request, None, now).response
  {
    match Auth.RequireAuth(request, None, now)
    case Threw(response) => Threw(response)
    case Ok(_) => Ok(SampleNotifications(now))
    case Crashed => Crashed
  }

  /** Shown at the moment they were served, the samples read "0m ago", "30m ago" and "2h ago";
      two are unread, one is an alert, three in all. */
  lemma SamplesAsShown(now: int)
    ensures var ns := SampleNotifications(now);
      && FormatTimeAgo(now, ns[0].timestamp) == "0m ago"
      && FormatTimeAgo(now, ns[1].timestamp) == "30m ago"
      && FormatTimeAgo(now, ns[2].timestamp) == "2h ago"
      && UnreadCount(ns) == 2 && HighPriorityCount(ns) == 1 && |ns| == 3
  {
    var ns := SampleNotifications(now);
    assert DiffInMinutes(now, ns[0].timestamp) == 0;
    assert DiffInMinutes(now, ns[1].timestamp) == 30;
    assert DiffInMinutes(now, ns[2].timestamp) == 120;
    assert NatToString(30) == "30";
    assert ns[1..][1..][1..] == [];
  }
}
