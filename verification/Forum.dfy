/** The forum index page (src/pages/Forum.tsx): category listing and totals,
    search, relative times, the online-user list and the local chat box. */
module Forum {
  import opened Common
  import Auth
  import Gateway
  import Session

  /** The fields of a thread the client reads. */
  datatype ForumThread = ForumThread(id: int, categoryId: int, title: string, authorUid: int, replies: int)

  datatype Category = Category(id: int, name: string)

  /** A line of the forum's own chat box; `timestamp` is left out. */
  datatype ChatMessage = ChatMessage(id: int, user: string, message: string, userId: int)

  /** `getThreadsForCategory`: the threads of one category, in list order. */
  function ThreadsForCategory(threads: seq<ForumThread>, categoryId: int): (r: seq<ForumThread>)
    ensures forall i :: 0 <= i < |r| ==> r[i].categoryId == categoryId
    ensures forall t :: t in r <==> t in threads && t.categoryId == categoryId
  {
    var r := Filter(threads, (t: ForumThread) => t.categoryId == categoryId);
    assert forall t :: t in r <==> t in threads && t.categoryId == categoryId by {
      forall t {
        FilterMembership(threads, (t: ForumThread) => t.categoryId == categoryId, t);
      }
    }
    r
  }

  /** Threads of a category found in two pieces of the list appear in that order. */
  lemma ThreadsForCategoryKeepsOrder(a: seq<ForumThread>, b: seq<ForumThread>, categoryId: int)
    ensures ThreadsForCategory(a + b, categoryId) == ThreadsForCategory(a, categoryId) + ThreadsForCategory(b, categoryId)
  {
    FilterAppend(a, b, (t: ForumThread) => t.categoryId == categoryId);
  }

  /** `getLatestThread`: `null` for an empty category, else the first thread of
      the category in list order. */
  function LatestThread(threads: seq<ForumThread>, categoryId: int): (r: Option<ForumThread>)
    ensures r.None? <==> forall i :: 0 <= i < |threads| ==> threads[i].categoryId != categoryId
    ensures r.Some? ==> exists i :: 0 <= i < |threads| && threads[i] == r.value && threads[i].categoryId == categoryId &&
                                     forall j :: 0 <= j < i ==> threads[j].categoryId != categoryId
  {
    var ts := ThreadsForCategory(threads, categoryId);
    if |ts| == 0 then None
    else
      FirstOfCategory(threads, categoryId);
      Some(ts[0])
  }

  /** The head of the category's list is its first thread in the whole list. */
  lemma FirstOfCategory(threads: seq<ForumThread>, categoryId: int)
    requires ThreadsForCategory(threads, categoryId) != []
    ensures exists i :: 0 <= i < |threads| && threads[i] == ThreadsForCategory(threads, categoryId)[0] &&
                        threads[i].categoryId == categoryId &&
                        forall j :: 0 <= j < i ==> threads[j].categoryId != categoryId
  {
    var i := FilterHead(threads, (t: ForumThread) => t.categoryId == categoryId);
  }

  /** `reduce((sum, t) => sum + t.replies + 1, 0)` */
  function MessageTotal(threads: seq<ForumThread>): int {
    if threads == [] then 0
    else MessageTotal(threads[..|threads| - 1]) + threads[|threads| - 1].replies + 1
  }

  /** A category's message total counts every thread once plus its replies, so
      with no negative reply counts it is at least the number of threads. */
  lemma {:induction false} MessageTotalAtLeastCount(threads: seq<ForumThread>)
    requires forall i :: 0 <= i < |threads| ==> threads[i].replies >= 0
    ensures MessageTotal(threads) >= |threads|
  {
    if threads != [] {
      MessageTotalAtLeastCount(threads[..|threads| - 1]);
    }
  }

  /** The total over two pieces of the list is the sum of their totals. */
  lemma {:induction false} MessageTotalAppend(a: seq<ForumThread>, b: seq<ForumThread>)
    ensures MessageTotal(a + b) == MessageTotal(a) + MessageTotal(b)
  {
    if b == [] {
      assert a + b == a;
    } else {
      assert (a + b)[..|a + b| - 1] == a + b[..|b| - 1];
      MessageTotalAppend(a, b[..|b| - 1]);
    }
  }

  /** `handleCategoryClick`: clicking the selected category deselects it; any other is selected. */
  function ToggleCategory(selected: Option<int>, clicked: int): (r: Option<int>)
    ensures r == None <==> selected == Some(clicked)
    ensures r.Some? ==> r.value == clicked
  {
    if selected == Some(clicked) then None else Some(clicked)
  }

  /** Two clicks on the same category from no selection end with no selection. */
  lemma ToggleTwice(clicked: int)
    ensures ToggleCategory(ToggleCategory(None, clicked), clicked) == None
  {
  }

  /** `filteredThreads`: with a non-empty query, the threads whose lower-cased
      title includes the lower-cased query; with an empty one, all threads. */
  function FilteredThreads(threads: seq<ForumThread>, query: string): (r: seq<ForumThread>)
    ensures query == "" ==> r == threads
    ensures query != "" ==> forall t :: t in r <==> t in threads && Contains(ToLower(t.title), ToLower(query))
  {
    if query == "" then threads
    else
      var p := (t: ForumThread) => Contains(ToLower(t.title), ToLower(query));
      assert forall t :: t in Filter(threads, p) <==> t in threads && p(t) by {
        forall t {
          FilterMembership(threads, p, t);
        }
      }
      Filter(threads, p)
  }

  /** The search does not depend on the letter case of the query. */
  lemma SearchIgnoresQueryCase(threads: seq<ForumThread>, query: string)
    ensures FilteredThreads(threads, ToLower(query)) == FilteredThreads(threads, query)
  {
    ToLowerIdempotent(query);
    assert (query == "") == (ToLower(query) == "");
    if query != "" {
      var p1 := (t: ForumThread) => Contains(ToLower(t.title), ToLower(ToLower(query)));
      var p2 := (t: ForumThread) => Contains(ToLower(t.title), ToLower(query));
      assert p1 == p2;
    }
  }

  /** The online-user list: the users that are not banned, in order. */
  function NonBanned(users: seq<Auth.User>): seq<Auth.User> {
    Filter(users, (u: Auth.User) => !u.banned)
  }

  /** The online list holds exactly the users that are not banned. */
  lemma NonBannedMembers(users: seq<Auth.User>)
    ensures forall i :: 0 <= i < |NonBanned(users)| ==> !NonBanned(users)[i].banned
    ensures forall u :: u in NonBanned(users) <==> u in users && !u.banned
  {
    forall u {
      FilterMembership(users, (u: Auth.User) => !u.banned, u);
    }
  }

  /** "N minute(s) ago" / "N hour(s) ago", plural iff N > 1. */
  function Ago(n: int, unit: string): string {
    IntToString(n) + " " + unit + (if n > 1 then "s" else "") + " ago"
  }

  /** `formatDate` for a timestamp `diff` milliseconds in the past. `None`
      stands for the locale date the page falls back to after a day. */
  function RelativeTime(diff: int): (r: Option<string>)
    ensures diff < 60000 ==> r == Some("Just now")
    ensures 60000 <= diff < 3600000 ==> 1 <= diff / 60000 < 60 && r == Some(Ago(diff / 60000, "minute"))
    ensures 3600000 <= diff < 86400000 ==> 1 <= diff / 3600000 < 24 && r == Some(Ago(diff / 3600000, "hour"))
    ensures r == None <==> diff >= 86400000
  {
    var minutes := diff / 60000;
    var hours := diff / 3600000;
    if minutes < 1 then Some("Just now")
    else if minutes < 60 then Some(Ago(minutes, "minute"))
    else if hours < 24 then Some(Ago(hours, "hour"))
    else None
  }

  /** Between n and n + 1 whole minutes ago (under an hour) the page prints
      "n minute(s) ago": the count is the elapsed minutes rounded down. */
  lemma RelativeTimeMinutes(diff: int, n: int)
    requires 1 <= n < 60 && n * 60000 <= diff < (n + 1) * 60000
    ensures RelativeTime(diff) == Some(Ago(n, "minute"))
  {
    assert diff / 60000 == n;
  }

  /** Between n and n + 1 whole hours ago (under a day) the page prints
      "n hour(s) ago". */
  lemma RelativeTimeHours(diff: int, n: int)
    requires 1 <= n < 24 && n * 3600000 <= diff < (n + 1) * 3600000
    ensures RelativeTime(diff) == Some(Ago(n, "hour"))
  {
    assert diff / 3600000 == n;
  }

  /** The unit is plural exactly when the count exceeds one. */
  lemma AgoPlural(n: int, unit: string)
    requires n >= 1
    requires unit != [] && unit[0] != ' '
    ensures var s := Ago(n, unit); EndsWith(s, unit + "s ago") <==> n > 1
  {
    var s := Ago(n, unit);
    var prefix := IntToString(n) + " ";
    if n > 1 {
      assert s == prefix + (unit + "s ago");
    } else {
      assert s == prefix + unit + " ago";
      assert IntToString(n) == "1";
      assert |s| == |unit| + 6 && s[1] == ' ';
      assert (unit + "s ago")[0] == unit[0];
      assert s[|s| - |unit + "s ago"|..][0] == s[1];
    }
  }

  /** The admin link on the forum: badge `Owner` or `Admin`, and a handler passed in. */
  predicate AdminLinkShown(user: Auth.User, hasHandler: bool) {
    (user.badge == "Owner" || user.badge == "Admin") && hasHandler
  }

  /** The link is not a guard: a user without it still reaches `/admin`. */
  lemma AdminLinkIsNotAGuard(user: Auth.User)
    requires user.badge == "Member"
    ensures !AdminLinkShown(user, true)
    ensures Session.RouteElement(Session.Admin, Some(user)).Render?
  {
  }

  /** The forum page's state. */
  class ForumPage {
    const username: string
    const uid: int
    var categories: seq<Category>
    var threads: seq<ForumThread>
    var onlineUsers: seq<Auth.User>
    var selectedCategory: Option<int>
    var isLoading: bool
    var searchQuery: string
    var chatMessages: seq<ChatMessage>
    var newChatMessage: string

    /** Chat ids are positions counted from 1. */
    predicate ChatIdsSequential()
      reads this
    {
      forall i :: 0 <= i < |chatMessages| ==> chatMessages[i].id == i + 1
    }

    /** The page as first shown, with the two canned chat lines. */
    constructor (user: Auth.User)
      ensures username == user.username && uid == user.uid
      ensures categories == [] && threads == [] && onlineUsers == [] && selectedCategory == None
      ensures !isLoading && searchQuery == "" && newChatMessage == ""
      ensures |chatMessages| == 2 && ChatIdsSequential()
    {
      username := user.username;
      uid := user.uid;
      categories := [];
      threads := [];
      onlineUsers := [];
      selectedCategory := None;
      isLoading := false;
      searchQuery := "";
      newChatMessage := "";
      chatMessages := [ChatMessage(1, "Admin", "Welcome to the forum chat!", 1),
                       ChatMessage(2, "Moderator", "Please keep the chat civil and on-topic.", 2)];
    }

    /** `loadData`. The three replies answer `getCategories`, `getThreads` and
        `getUsers`; `threadsEndpoint` is the path the threads request uses. */
    method LoadData(categoriesReply: Reply<Listing<Category>>,
                    threadsReply: Reply<Listing<ForumThread>>,
                    usersReply: Reply<Listing<Auth.User>>)
      returns (threadsEndpoint: Option<string>)
      modifies this`isLoading, this`categories, this`threads, this`onlineUsers
      ensures old(isLoading) ==> threadsEndpoint == None && unchanged(this)
      ensures !old(isLoading) ==> threadsEndpoint == Some(Gateway.ThreadsEndpoint(
                if selectedCategory.Some? && selectedCategory.value != 0 then selectedCategory else None))
      ensures !old(isLoading) && categoriesReply.Returned? && threadsReply.Returned? && usersReply.Returned? ==>
                && categories == Items(categoriesReply.body)
                && threads == Items(threadsReply.body)
                && onlineUsers == NonBanned(Items(usersReply.body))
      ensures !old(isLoading) && !(categoriesReply.Returned? && threadsReply.Returned? && usersReply.Returned?) ==>
                categories == old(categories) && threads == old(threads) && onlineUsers == old(onlineUsers)
      ensures !old(isLoading) ==> !isLoading
    {
      if isLoading {
        return None;
      }
      var selected := selectedCategory;
      threadsEndpoint := Some(Gateway.ThreadsEndpoint(
        if selected.Some? && selected.value != 0 then selected else None));
      isLoading := true;
      if categoriesReply.Returned? && threadsReply.Returned? && usersReply.Returned? {
        categories := Items(categoriesReply.body);
        threads := Items(threadsReply.body);
        onlineUsers := NonBanned(Items(usersReply.body));
      }
      isLoading := false;
    }

    /** `handleCategoryClick`. */
    method HandleCategoryClick(categoryId: int)
      modifies this`selectedCategory
      ensures selectedCategory == ToggleCategory(old(selectedCategory), categoryId)
    {
      selectedCategory := ToggleCategory(selectedCategory, categoryId);
    }

    /** `handleSendChatMessage`: a blank input is ignored; otherwise the line is
        appended with the next id and the input is cleared. */
    method SendChatMessage()
      requires ChatIdsSequential()
      modifies this`chatMessages, this`newChatMessage
      ensures ChatIdsSequential()
      ensures IsBlank(old(newChatMessage)) ==>
                chatMessages == old(chatMessages) && newChatMessage == old(newChatMessage)
      ensures !IsBlank(old(newChatMessage)) ==>
                && chatMessages == old(chatMessages) + [ChatMessage(|old(chatMessages)| + 1, username, old(newChatMessage), uid)]
                && newChatMessage == ""
                && forall i :: 0 <= i < |old(chatMessages)| ==> old(chatMessages)[i].id != chatMessages[|chatMessages| - 1].id
    {
      var text := newChatMessage;
      if IsBlank(text) {
        return;
      }
      var message := ChatMessage(|chatMessages| + 1, username, text, uid);
      chatMessages := chatMessages + [message];
      newChatMessage := "";
    }
  }
}
