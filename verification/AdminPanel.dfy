/** The administration page (src/pages/AdminPanel.tsx): the per-tab load with
    its re-entrance guard, the lists the tabs derive from what was loaded, the
    invite-amount selector, and the guarded code, ban and rank actions. */
module AdminPanel {
  import opened Common
  import Auth
  import Forum

  // ---------------------------------------------------------------------------
  // Data

  datatype Tab = Overview | Users | Activity | BannedTab | Reports | Events

  datatype InvitationCode = InvitationCode(code: string, createdBy: int, expiresAt: string, used: bool)

  /** The counters of `getAdminStats`. */
  datatype AdminStats = AdminStats(totalUsers: int, activeUsers: int, bannedUsers: int, newUsersThisWeek: int,
                                   threads: int, posts: int, newThreadsThisWeek: int, pendingReports: int)

  datatype StatsReply = StatsReply(success: bool, stats: Option<AdminStats>)

  /** `statsResponse.success ? statsResponse.stats : null` */
  function StatsOf(reply: StatsReply): Option<AdminStats> {
    if reply.success then reply.stats else None
  }

  /** A report as the reports tab reads it. */
  datatype Report = Report(id: int, kind: string, targetId: int, reason: string, reportedBy: int,
                           status: string, action: Option<string>)

  datatype EventKind = InviteWave | RewardDrop | Special

  /** An event; times are milliseconds since the epoch, and `executedAt` is
      present only for an event that has run. */
  datatype Event = Event(id: int, name: string, description: string, kind: EventKind,
                         isActive: bool, createdAt: int, executedAt: Option<int>)

  // ---------------------------------------------------------------------------
  // Lists derived by the tabs

  /** The banned-users tab: the users with `banned` set, in order. */
  function BannedOnly(users: seq<Auth.User>): seq<Auth.User> {
    Filter(users, (u: Auth.User) => u.banned)
  }

  /** The banned list holds exactly the banned users. */
  lemma BannedOnlyMembers(users: seq<Auth.User>)
    ensures forall i :: 0 <= i < |BannedOnly(users)| ==> BannedOnly(users)[i].banned
    ensures forall u :: u in BannedOnly(users) <==> u in users && u.banned
  {
    forall u {
      FilterMembership(users, (u: Auth.User) => u.banned, u);
    }
  }

  /** The admin's banned list and the forum's online list split the users
      between them: together they hold every user exactly once. */
  lemma BannedAndOnlineSplitUsers(users: seq<Auth.User>)
    ensures multiset(BannedOnly(users)) + multiset(Forum.NonBanned(users)) == multiset(users)
    ensures |BannedOnly(users)| + |Forum.NonBanned(users)| == |users|
  {
    FilterPartition(users, (u: Auth.User) => u.banned, (u: Auth.User) => !u.banned);
  }

  predicate IsPending(r: Report) {
    r.status == "pending"
  }

  predicate IsReviewed(r: Report) {
    r.status != "pending"
  }

  function Pending(reports: seq<Report>): seq<Report> {
    Filter(reports, IsPending)
  }

  function Reviewed(reports: seq<Report>): seq<Report> {
    Filter(reports, IsReviewed)
  }

  /** The pending and the reviewed sections partition the reports: every
      report is in exactly one of them, as often as it occurs. */
  lemma ReportsPartition(reports: seq<Report>)
    ensures multiset(Pending(reports)) + multiset(Reviewed(reports)) == multiset(reports)
    ensures |Pending(reports)| + |Reviewed(reports)| == |reports|
    ensures forall r :: r in Pending(reports) ==> r !in Reviewed(reports)
  {
    FilterPartition(reports, IsPending, IsReviewed);
  }

  /** The reviewed section lists the first ten reviewed reports. */
  function ReviewedShown(reports: seq<Report>): (shown: seq<Report>)
    ensures |shown| == Min(10, |Reviewed(reports)|)
    ensures shown <= Reviewed(reports)
  {
    var reviewed := Reviewed(reports);
    reviewed[..Min(10, |reviewed|)]
  }

  // ---------------------------------------------------------------------------
  // Events

  datatype EventsReply = EventsReply(success: bool, events: Option<seq<Event>>)

  /** The event shown whenever the backend offers none. */
  function FallbackEvent(now: int): Event {
    Event(1, "Invite Wave", "Give all users an invite that lasts 2 months", InviteWave, true, now, None)
  }

  /** The events list for the events tab at time `now`: the backend's events
      when it returned a non-empty list, the fallback alone otherwise
      (unsuccessful, missing, empty or thrown). */
  function LoadedEvents(reply: Reply<EventsReply>, now: int): (events: seq<Event>)
    ensures events != []
    ensures reply.Returned? && reply.body.success && reply.body.events.Some? && reply.body.events.value != [] ==>
              events == reply.body.events.value
    ensures !(reply.Returned? && reply.body.success && reply.body.events.Some? && reply.body.events.value != []) ==>
              |events| == 1 && events[0].kind == InviteWave && events[0].isActive && events[0].name == "Invite Wave"
  {
    match reply
    case Returned(r) =>
      if r.success && r.events.Some? && |r.events.value| > 0 then r.events.value else [FallbackEvent(now)]
    case Threw(_) => [FallbackEvent(now)]
  }

  /** `event.executedAt` is set. */
  predicate Executed(e: Event) {
    e.executedAt.Some?
  }

  /** The time an executed event ran; the history orders by it. */
  function RunAt(e: Event): int {
    match e.executedAt
    case Some(t) => t
    case None => 0
  }

  /** Newest first: no event is preceded by one that ran earlier. */
  predicate NewestFirst(s: seq<Event>) {
    forall i, j :: 0 <= i < j < |s| ==> RunAt(s[i]) >= RunAt(s[j])
  }

  /** Puts `e` in front of the first event that ran no later than it. */
  function Insert(e: Event, s: seq<Event>): seq<Event> {
    if s == [] || RunAt(e) >= RunAt(s[0]) then [e] + s
    else [s[0]] + Insert(e, s[1..])
  }

  /** A sort on `executedAt`, newest first, keeping the input order among equal times. */
  function SortNewestFirst(s: seq<Event>): seq<Event> {
    if s == [] then [] else Insert(s[0], SortNewestFirst(s[1..]))
  }

  lemma {:induction false} InsertPermutes(e: Event, s: seq<Event>)
    ensures multiset(Insert(e, s)) == multiset(s) + multiset{e}
  {
    if s != [] && RunAt(e) < RunAt(s[0]) {
      InsertPermutes(e, s[1..]);
      assert s == [s[0]] + s[1..];
    }
  }

  lemma {:induction false} InsertKeepsOrder(e: Event, s: seq<Event>)
    requires NewestFirst(s)
    ensures NewestFirst(Insert(e, s))
  {
    if s != [] && RunAt(e) < RunAt(s[0]) {
      InsertKeepsOrder(e, s[1..]);
      InsertPermutes(e, s[1..]);
      var rest := Insert(e, s[1..]);
      forall k | 0 <= k < |rest|
        ensures RunAt(s[0]) >= RunAt(rest[k])
      {
        assert rest[k] in multiset(s[1..]) + multiset{e};
        if rest[k] != e {
          assert rest[k] in s[1..];
        }
      }
    }
  }

  lemma {:induction false} SortSpec(s: seq<Event>)
    ensures NewestFirst(SortNewestFirst(s))
    ensures multiset(SortNewestFirst(s)) == multiset(s)
  {
    if s != [] {
      SortSpec(s[1..]);
      InsertKeepsOrder(s[0], SortNewestFirst(s[1..]));
      InsertPermutes(s[0], SortNewestFirst(s[1..]));
      assert s == [s[0]] + s[1..];
    }
  }

  /** The "Recent Event History" list. */
  function EventHistory(events: seq<Event>): seq<Event> {
    SortNewestFirst(Filter(events, Executed))
  }

  /** The history holds exactly the executed events, as often as they occur,
      newest first; its length is the "Events Executed" count, so it is empty
      exactly when that count is zero. */
  lemma EventHistorySpec(events: seq<Event>)
    ensures NewestFirst(EventHistory(events))
    ensures multiset(EventHistory(events)) == multiset(Filter(events, Executed))
    ensures forall e :: e in EventHistory(events) <==> e in events && Executed(e)
    ensures |EventHistory(events)| == Count(events, Executed)
  {
    var executed := Filter(events, Executed);
    SortSpec(executed);
    forall e
      ensures e in EventHistory(events) <==> e in events && Executed(e)
    {
      assert e in EventHistory(events) <==> e in multiset(executed);
      FilterMembership(events, Executed, e);
    }
    assert |multiset(EventHistory(events))| == |multiset(executed)|;
  }

  // ---------------------------------------------------------------------------
  // The invite-amount selector

  datatype AmountButton = Minus | Plus

  /** Whether a button of the selector is disabled at amount `n`. */
  predicate Disabled(b: AmountButton, n: int) {
    match b
    case Minus => n <= 1
    case Plus => n >= 10
  }

  /** The amount after a click on `b`; a disabled button ignores the click.
      Only the minus button clamps (`Math.max(1, n - 1)`); the plus button
      relies on being disabled. */
  function Clicked(b: AmountButton, n: int): (m: int)
    ensures Disabled(b, n) ==> m == n
    ensures !Disabled(b, n) && b == Minus ==> m == n - 1
    ensures !Disabled(b, n) && b == Plus ==> m == n + 1
  {
    if Disabled(b, n) then n
    else
      match b
      case Minus => Max(1, n - 1)
      case Plus => n + 1
  }

  function AmountAfter(n: int, clicks: seq<AmountButton>): int
    decreases |clicks|
  {
    if clicks == [] then n else AmountAfter(Clicked(clicks[0], n), clicks[1..])
  }

  /** From the initial amount 1, or any amount from 1 to 10, no sequence of
      clicks leaves that range. */
  lemma {:induction false} AmountStaysInRange(n: int, clicks: seq<AmountButton>)
    requires 1 <= n <= 10
    ensures 1 <= AmountAfter(n, clicks) <= 10
    decreases |clicks|
  {
    if clicks != [] {
      AmountStaysInRange(Clicked(clicks[0], n), clicks[1..]);
    }
  }

  // ---------------------------------------------------------------------------
  // Actions

  /** The `expiresAt` sent for an expiry date and time. */
  function ExpiresAt(date: string, time: string): (r: string)
    ensures |r| == |date| + |time| + 9
  {
    date + "T" + time + ":00.000Z"
  }

  /** The date and the time can be read back from the text sent. */
  lemma ExpiresAtParts(date: string, time: string)
    ensures var r := ExpiresAt(date, time);
      && r[..|date|] == date
      && r[|date|] == 'T'
      && r[|date| + 1..|r| - 8] == time
      && r[|r| - 8..] == ":00.000Z"
  {
    var r := ExpiresAt(date, time);
    assert r == date + "T" + time + ":00.000Z";
    assert r[|date| + 1..|r| - 8] == time;
  }

  /** Ban and rank reply: only whether the call threw matters. */
  type Ack = Reply<bool>

  /** The page's state. */
  class Panel {
    const admin: Auth.User
    var activeTab: Tab
    var inviteWaveAmount: int
    var users: seq<Auth.User>
    var codes: seq<InvitationCode>
    var stats: Option<AdminStats>
    var reports: seq<Report>
    var bannedUsers: seq<Auth.User>
    var events: seq<Event>
    var isLoading: bool
    var expiryDate: string
    var expiryTime: string
    var showBanModal: bool
    var showRankModal: bool
    var selectedUser: Option<Auth.User>
    var banReason: string
    var newRank: string

    constructor (admin: Auth.User)
      ensures this.admin == admin && activeTab == Overview && inviteWaveAmount == 1
      ensures users == [] && codes == [] && stats == None && reports == [] && bannedUsers == [] && events == []
      ensures !isLoading && expiryDate == "" && expiryTime == "23:59"
      ensures !showBanModal && !showRankModal && selectedUser == None && banReason == "" && newRank == ""
    {
      this.admin := admin;
      activeTab := Overview;
      inviteWaveAmount := 1;
      users := [];
      codes := [];
      stats := None;
      reports := [];
      bannedUsers := [];
      events := [];
      isLoading := false;
      expiryDate := "";
      expiryTime := "23:59";
      showBanModal := false;
      showRankModal := false;
      selectedUser := None;
      banReason := "";
      newRank := "";
    }

    /** `loadData` for the active tab. A load already in progress makes it
        return at once; otherwise the tab's data is replaced when its calls
        returned (both of them, for the overview), and kept when one threw.
        The events tab loads nothing. */
    method LoadData(statsReply: Reply<StatsReply>, codesReply: Reply<Listing<InvitationCode>>,
                    usersReply: Reply<Listing<Auth.User>>, reportsReply: Reply<Listing<Report>>)
      modifies this`isLoading, this`stats, this`codes, this`users, this`bannedUsers, this`reports
      ensures old(isLoading) ==> unchanged(this)
      ensures !old(isLoading) ==> !isLoading
      ensures !old(isLoading) ==>
                && stats == (if activeTab == Overview && statsReply.Returned? && codesReply.Returned?
                             then StatsOf(statsReply.body) else old(stats))
                && codes == (if activeTab == Overview && statsReply.Returned? && codesReply.Returned?
                             then Items(codesReply.body) else old(codes))
                && users == (if (activeTab == Users || activeTab == Activity) && usersReply.Returned?
                             then Items(usersReply.body) else old(users))
                && bannedUsers == (if activeTab == BannedTab && usersReply.Returned?
                                   then BannedOnly(Items(usersReply.body)) else old(bannedUsers))
                && reports == (if activeTab == Reports && reportsReply.Returned?
                               then Items(reportsReply.body) else old(reports))
    {
      if isLoading {
        return;
      }
      isLoading := true;
      match activeTab {
        case Overview =>
          if statsReply.Returned? && codesReply.Returned? {
            stats := StatsOf(statsReply.body);
            codes := Items(codesReply.body);
          }
        case Users =>
          if usersReply.Returned? {
            users := Items(usersReply.body);
          }
        case BannedTab =>
          if usersReply.Returned? {
            bannedUsers := BannedOnly(Items(usersReply.body));
          }
        case Reports =>
          if reportsReply.Returned? {
            reports := Items(reportsReply.body);
          }
        case Activity =>
          if usersReply.Returned? {
            users := Items(usersReply.body);
          }
        case Events =>
      }
      isLoading := false;
    }

    /** A click on a button of the invite-amount selector. */
    method ClickAmount(b: AmountButton)
      modifies this`inviteWaveAmount
      ensures inviteWaveAmount == Clicked(b, old(inviteWaveAmount))
    {
      inviteWaveAmount := Clicked(b, inviteWaveAmount);
    }

    /** `handleGenerateCode`. `request` is the `expiresAt` passed to
        `createCode`; `reload` says whether the overview is loaded again. */
    method HandleGenerateCode(reply: Ack) returns (request: Option<string>, alert: string, reload: bool)
      ensures request.Some? <==> expiryDate != ""
      ensures request.Some? ==> request.value == ExpiresAt(expiryDate, expiryTime)
      ensures request.None? ==> alert == "Please select an expiry date" && !reload
      ensures request.Some? && reply.Returned? ==> alert == "Invitation code generated successfully!" && reload
      ensures request.Some? && reply.Threw? ==> alert == "Failed to generate code" && !reload
    {
      var date, time := expiryDate, expiryTime;
      if date == "" {
        return None, "Please select an expiry date", false;
      }
      request := Some(ExpiresAt(date, time));
      if reply.Returned? {
        alert, reload := "Invitation code generated successfully!", true;
      } else {
        alert, reload := "Failed to generate code", false;
      }
    }

    /** `handleBanUser`: opens the ban dialog for `user`. */
    method HandleBanUser(user: Auth.User)
      modifies this`selectedUser, this`showBanModal
      ensures selectedUser == Some(user) && showBanModal
    {
      selectedUser := Some(user);
      showBanModal := true;
    }

    /** `handleConfirmBan`. The ban is sent only with a selected user and a
        reason that is not blank (sent untrimmed); a ban that went through
        closes the dialog and clears the user and the reason, a failure
        leaves them as they were. */
    method HandleConfirmBan(reply: Ack) returns (request: Option<(int, string, int)>, alert: string, reload: bool)
      modifies this`showBanModal, this`banReason, this`selectedUser
      ensures request.Some? <==> old(selectedUser).Some? && !IsBlank(old(banReason))
      ensures request.Some? ==> request.value == (old(selectedUser).value.uid, old(banReason), admin.uid)
      ensures request.None? ==> alert == "Please enter a ban reason" && !reload
      ensures request.Some? && reply.Returned? ==>
                alert == "User banned successfully!" && reload &&
                !showBanModal && banReason == "" && selectedUser == None
      ensures request.Some? && reply.Threw? ==> alert == "Failed to ban user" && !reload
      ensures !(request.Some? && reply.Returned?) ==>
                showBanModal == old(showBanModal) && banReason == old(banReason) && selectedUser == old(selectedUser)
    {
      var target, reason := selectedUser, banReason;
      if target.None? || IsBlank(reason) {
        return None, "Please enter a ban reason", false;
      }
      request := Some((target.value.uid, reason, admin.uid));
      if reply.Returned? {
        alert, reload := "User banned successfully!", true;
        showBanModal := false;
        banReason := "";
        selectedUser := None;
      } else {
        alert, reload := "Failed to ban user", false;
      }
    }

    /** `handleChangeRank`: opens the rank dialog for `user`, preset to its badge. */
    method HandleChangeRank(user: Auth.User)
      modifies this`selectedUser, this`newRank, this`showRankModal
      ensures selectedUser == Some(user) && newRank == user.badge && showRankModal
    {
      selectedUser := Some(user);
      newRank := user.badge;
      showRankModal := true;
    }

    /** `handleConfirmRankChange`: sent only with a selected user and a
        non-empty rank; success closes the dialog and clears both. */
    method HandleConfirmRankChange(reply: Ack) returns (request: Option<(int, string)>, alert: string, reload: bool)
      modifies this`showRankModal, this`newRank, this`selectedUser
      ensures request.Some? <==> old(selectedUser).Some? && old(newRank) != ""
      ensures request.Some? ==> request.value == (old(selectedUser).value.uid, old(newRank))
      ensures request.None? ==> alert == "Please select a rank" && !reload
      ensures request.Some? && reply.Returned? ==>
                alert == "User rank changed successfully!" && reload &&
                !showRankModal && newRank == "" && selectedUser == None
      ensures request.Some? && reply.Threw? ==> alert == "Failed to change rank" && !reload
      ensures !(request.Some? && reply.Returned?) ==>
                showRankModal == old(showRankModal) && newRank == old(newRank) && selectedUser == old(selectedUser)
    {
      var target, rank := selectedUser, newRank;
      if target.None? || rank == "" {
        return None, "Please select a rank", false;
      }
      request := Some((target.value.uid, rank));
      if reply.Returned? {
        alert, reload := "User rank changed successfully!", true;
        showRankModal := false;
        newRank := "";
        selectedUser := None;
      } else {
        alert, reload := "Failed to change rank", false;
      }
    }
  }

  /** Opening the rank dialog for a user and confirming at once sends that
      user's current badge, provided the badge is not empty. */
  method RankDialogSendsBadge(admin: Auth.User, user: Auth.User)
    returns (request: Option<(int, string)>)
    ensures request.Some? <==> user.badge != ""
    ensures request.Some? ==> request.value == (user.uid, user.badge)
  {
    var panel := new Panel(admin);
    panel.HandleChangeRank(user);
    var alert, reload;
    request, alert, reload := panel.HandleConfirmRankChange(Returned(true));
  }
}
