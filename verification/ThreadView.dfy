/** The thread page (src/pages/ThreadView.tsx): loading a thread with its
    posts, reaction counts and authors; reacting; replying; and the report form. */
module ThreadView {
  import opened Common
  import Auth
  import Forum

  /** The fields of a post the page reads. */
  datatype ForumPost = ForumPost(id: int, threadId: int, content: string, authorUid: int)

  // ---------------------------------------------------------------------------
  // Reaction counts

  /** The value stored under an emoji in a reactions object: an array of user
      ids, or anything else. */
  datatype ReactionUsers = UserList(uids: seq<int>) | NotAList

  /** `Array.isArray(users) ? users.length : 0` */
  function UsersCount(users: ReactionUsers): nat {
    match users
    case UserList(uids) => |uids|
    case NotAList => 0
  }

  /** `Object.entries` of a reactions object: emoji keys with their values. */
  type Entries = seq<(string, ReactionUsers)>

  /** The keys of an object are distinct. */
  predicate DistinctKeys(entries: Entries) {
    forall i, j :: 0 <= i < j < |entries| ==> entries[i].0 != entries[j].0
  }

  /** The count object the `forEach` over the entries fills in, entry by entry. */
  function CountMap(entries: Entries): map<string, nat> {
    if entries == [] then map[]
    else
      var last := entries[|entries| - 1];
      CountMap(entries[..|entries| - 1])[last.0 := UsersCount(last.1)]
  }

  /** The count object has exactly the emojis of the reactions object. */
  lemma {:induction false} CountMapKeys(entries: Entries)
    ensures forall k :: k in CountMap(entries) <==> exists i :: 0 <= i < |entries| && entries[i].0 == k
  {
    if entries != [] {
      var init := entries[..|entries| - 1];
      CountMapKeys(init);
      forall k ensures k in CountMap(entries) <==> exists i :: 0 <= i < |entries| && entries[i].0 == k {
        if k in CountMap(init) {
          var i :| 0 <= i < |init| && init[i].0 == k;
          assert entries[i] == init[i];
        }
        if exists i :: 0 <= i < |entries| && entries[i].0 == k {
          var i :| 0 <= i < |entries| && entries[i].0 == k;
          if i < |init| {
            assert init[i] == entries[i];
          }
        }
      }
    }
  }

  /** Each emoji counts the users listed under it, or 0 when that is not a list. */
  lemma {:induction false} CountMapValue(entries: Entries, i: int)
    requires DistinctKeys(entries)
    requires 0 <= i < |entries|
    ensures entries[i].0 in CountMap(entries)
    ensures CountMap(entries)[entries[i].0] == UsersCount(entries[i].1)
  {
    var n := |entries| - 1;
    if i < n {
      var init := entries[..n];
      assert init[i] == entries[i];
      CountMapValue(init, i);
    }
  }

  /** Filling in the counts one entry at a time. */
  method ReactionCounts(entries: Entries) returns (counts: map<string, nat>)
    ensures counts == CountMap(entries)
  {
    counts := map[];
    var i := 0;
    while i < |entries|
      invariant 0 <= i <= |entries|
      invariant counts == CountMap(entries[..i])
    {
      assert entries[..i + 1][..i] == entries[..i];
      counts := counts[entries[i].0 := UsersCount(entries[i].1)];
      i := i + 1;
    }
    assert entries[..|entries|] == entries;
  }

  /** The fields of a `getReactions` or `addReaction` reply the page reads. */
  datatype ReactionsReply = ReactionsReply(success: bool, reactions: Entries)

  /** `reactionResponse.success ? reactionResponse.reactions : {}`, and `{}` when the call throws. */
  function LoadedEntries(reply: Reply<ReactionsReply>): Entries {
    if reply.Returned? && reply.body.success then reply.body.reactions else []
  }

  /** The reactions map built for all posts: one count object per post id. */
  function PostReactions(posts: seq<ForumPost>, reactionsOf: int -> Reply<ReactionsReply>): map<int, map<string, nat>> {
    if posts == [] then map[]
    else
      var last := posts[|posts| - 1];
      PostReactions(posts[..|posts| - 1], reactionsOf)[last.id := CountMap(LoadedEntries(reactionsOf(last.id)))]
  }

  /** Every post has an entry, holding the counts of the reactions loaded for it,
      and nothing else has one. */
  lemma {:induction false} PostReactionsContents(posts: seq<ForumPost>, reactionsOf: int -> Reply<ReactionsReply>)
    ensures forall id :: id in PostReactions(posts, reactionsOf) <==> exists i :: 0 <= i < |posts| && posts[i].id == id
    ensures forall i :: 0 <= i < |posts| ==>
              PostReactions(posts, reactionsOf)[posts[i].id] == CountMap(LoadedEntries(reactionsOf(posts[i].id)))
  {
    if posts != [] {
      var init := posts[..|posts| - 1];
      PostReactionsContents(init, reactionsOf);
      forall id ensures id in PostReactions(posts, reactionsOf) <==> exists i :: 0 <= i < |posts| && posts[i].id == id {
        if id in PostReactions(posts, reactionsOf) && id != posts[|posts| - 1].id {
          var i :| 0 <= i < |init| && init[i].id == id;
          assert posts[i] == init[i];
        }
        if exists i :: 0 <= i < |posts| && posts[i].id == id {
          var i :| 0 <= i < |posts| && posts[i].id == id;
          if i < |init| {
            assert init[i] == posts[i];
          }
        }
      }
      forall i | 0 <= i < |init| ensures init[i] == posts[i] { }
    }
  }

  /** The loop over the reaction results. */
  method ReactionsMap(posts: seq<ForumPost>, reactionsOf: int -> Reply<ReactionsReply>)
    returns (m: map<int, map<string, nat>>)
    ensures m == PostReactions(posts, reactionsOf)
  {
    m := map[];
    var i := 0;
    while i < |posts|
      invariant 0 <= i <= |posts|
      invariant m == PostReactions(posts[..i], reactionsOf)
    {
      assert posts[..i + 1][..i] == posts[..i];
      var counts := ReactionCounts(LoadedEntries(reactionsOf(posts[i].id)));
      m := m[posts[i].id := counts];
      i := i + 1;
    }
    assert posts[..|posts|] == posts;
  }

  // ---------------------------------------------------------------------------
  // Authors

  /** The uids whose authors the page looks up: the thread's author, if there
      is a thread, and the author of every post. */
  function AuthorIdSet(thread: Option<Forum.ForumThread>, posts: seq<ForumPost>): set<int> {
    (if thread.Some? then {thread.value.authorUid} else {}) + set i | 0 <= i < |posts| :: posts[i].authorUid
  }

  /** The `Set` of author ids, in insertion order: each id once, the thread's author first. */
  method AuthorIds(thread: Option<Forum.ForumThread>, posts: seq<ForumPost>) returns (ids: seq<int>)
    ensures forall i, j :: 0 <= i < j < |ids| ==> ids[i] != ids[j]
    ensures forall uid :: uid in ids <==> uid in AuthorIdSet(thread, posts)
    ensures thread.Some? ==> ids != [] && ids[0] == thread.value.authorUid
  {
    ids := if thread.Some? then [thread.value.authorUid] else [];
    var i := 0;
    while i < |posts|
      invariant 0 <= i <= |posts|
      invariant forall a, b :: 0 <= a < b < |ids| ==> ids[a] != ids[b]
      invariant forall uid :: uid in ids <==> uid in AuthorIdSet(thread, posts[..i])
      invariant thread.Some? ==> ids != [] && ids[0] == thread.value.authorUid
    {
      assert forall k :: 0 <= k < i ==> posts[..i + 1][k] == posts[..i][k];
      assert posts[..i + 1][i] == posts[i];
      if posts[i].authorUid !in ids {
        ids := ids + [posts[i].authorUid];
      }
      i := i + 1;
    }
    assert posts[..|posts|] == posts;
  }

  /** The fields of a `getUser` reply the page reads. */
  datatype UserReply = UserReply(success: bool, user: Option<Auth.User>)

  /** `response.success ? response.user : null`, and `null` when the call throws. */
  function LookedUp(reply: Reply<UserReply>): Option<Auth.User> {
    if reply.Returned? && reply.body.success then reply.body.user else None
  }

  /** The authors map: exactly the uids whose lookup gave a user, each with that user. */
  method AuthorsMap(ids: seq<int>, userOf: int -> Reply<UserReply>) returns (authors: map<int, Auth.User>)
    ensures forall uid :: uid in authors <==> uid in ids && LookedUp(userOf(uid)).Some?
    ensures forall uid :: uid in authors ==> authors[uid] == LookedUp(userOf(uid)).value
  {
    authors := map[];
    var i := 0;
    while i < |ids|
      invariant 0 <= i <= |ids|
      invariant forall uid :: uid in authors <==> uid in ids[..i] && LookedUp(userOf(uid)).Some?
      invariant forall uid :: uid in authors ==> authors[uid] == LookedUp(userOf(uid)).value
    {
      assert ids[..i + 1] == ids[..i] + [ids[i]];
      var author := LookedUp(userOf(ids[i]));
      if author.Some? {
        authors := authors[ids[i] := author.value];
      }
      i := i + 1;
    }
    assert ids[..|ids|] == ids;
  }

  // ---------------------------------------------------------------------------
  // Replies and reports

  const ReplyEmpty: string := "Reply cannot be empty"
  const ReplyTooShort: string := "Reply must be at least 10 characters"
  const ReplyFailed: string := "Failed to post reply. Please try again."

  /** The checks of `handleSubmitReply`, in order. */
  function ValidateReply(content: string): (error: Option<string>)
    ensures error == None <==> !IsBlank(content) && Utf16Length(content) >= 10
    ensures IsBlank(content) ==> error == Some(ReplyEmpty)
    ensures !IsBlank(content) && Utf16Length(content) < 10 ==> error == Some(ReplyTooShort)
  {
    if IsBlank(content) then Some(ReplyEmpty)
    else if Utf16Length(content) < 10 then Some(ReplyTooShort)
    else None
  }

  /** The fields of a `createPost` reply the page reads. */
  datatype PostReply = PostReply(success: bool, message: Option<string>)

  /** The reply was stored: `response.success`. */
  predicate ReplyPosted(reply: Reply<PostReply>) {
    reply.Returned? && reply.body.success
  }

  /** The error left by a reply submit: the failed check, else the server's
      message or the default when the post was not stored, else nothing. */
  function SubmitReplyError(content: string, reply: Reply<PostReply>): string {
    match ValidateReply(content)
    case Some(e) => e
    case None =>
      match reply
      case Returned(r) => if r.success then "" else OrElse(r.message, ReplyFailed)
      case Threw(_) => ReplyFailed
  }

  /** What the report form does on submit. */
  datatype ReportAction = Alert(message: string) | Submit(reason: string, description: string)

  const ReportReasons: seq<string> := [
    "Spam or unwanted content", "Harassment or bullying", "Inappropriate content",
    "Misinformation", "Copyright violation", "Other"
  ]

  /** `ReportModal.handleSubmit`: a blank reason is refused with an alert;
      otherwise `onSubmit` receives the reason and description as typed. */
  function ReportSubmit(reason: string, description: string): (a: ReportAction)
    ensures a.Submit? <==> !IsBlank(reason)
    ensures a.Submit? ==> a.reason == reason && a.description == description
    ensures a.Alert? ==> a.message == "Please select a reason for reporting"
  {
    if IsBlank(reason) then Alert("Please select a reason for reporting") else Submit(reason, description)
  }

  /** A reason that starts with a visible character is not blank. */
  lemma VisibleStartNotBlank(reason: string)
    requires reason != [] && !IsWhitespace(reason[0])
    ensures !IsBlank(reason)
  {
    BlankIffAllWhitespace(reason);
  }

  /** Every reason the form offers is accepted. */
  lemma OfferedReasonsAccepted(reason: string, description: string)
    requires reason in ReportReasons
    ensures ReportSubmit(reason, description).Submit?
  {
    assert reason[0] in "SHIMCO";
    VisibleStartNotBlank(reason);
  }

  /** A reason of whitespace only is refused. */
  lemma WhitespaceReasonRefused(reason: string, description: string)
    requires forall i :: 0 <= i < |reason| ==> IsWhitespace(reason[i])
    ensures ReportSubmit(reason, description).Alert?
  {
    BlankIffAllWhitespace(reason);
  }

  // ---------------------------------------------------------------------------
  // The page

  /** The fields of `getThread` and `getPosts` replies the page reads. */
  datatype ThreadReply = ThreadReply(success: bool, thread: Option<Forum.ForumThread>)
  datatype PostsReply = PostsReply(success: bool, posts: seq<ForumPost>)

  class ThreadPage {
    const threadId: int
    var thread: Option<Forum.ForumThread>
    var posts: seq<ForumPost>
    var reactions: map<int, map<string, nat>>
    var postAuthors: map<int, Auth.User>
    var replyContent: string
    var error: string
    var isSubmitting: bool

    constructor (threadId: int)
      ensures this.threadId == threadId
      ensures thread == None && posts == [] && reactions == map[] && postAuthors == map[]
      ensures replyContent == "" && error == "" && !isSubmitting
    {
      this.threadId := threadId;
      thread := None;
      posts := [];
      reactions := map[];
      postAuthors := map[];
      replyContent := "";
      error := "";
      isSubmitting := false;
    }

    /** `loadThread`. The thread and the posts are fetched together; if either
        call throws, nothing changes. `reactionsOf` and `userOf` answer the
        per-post and per-author calls, whose failures count as empty. */
    method LoadThread(threadReply: Reply<ThreadReply>, postsReply: Reply<PostsReply>,
                      reactionsOf: int -> Reply<ReactionsReply>, userOf: int -> Reply<UserReply>)
      modifies this`thread, this`posts, this`reactions, this`postAuthors
      ensures threadReply.Threw? || postsReply.Threw? ==>
                thread == old(thread) && posts == old(posts) && reactions == old(reactions) && postAuthors == old(postAuthors)
      ensures threadReply.Returned? && postsReply.Returned? ==>
                && thread == (if threadReply.body.success then threadReply.body.thread else None)
                && posts == (if postsReply.body.success then postsReply.body.posts else [])
                && reactions == (if posts != [] then PostReactions(posts, reactionsOf) else old(reactions))
                && (AuthorIdSet(thread, posts) == {} ==> postAuthors == old(postAuthors))
                && (AuthorIdSet(thread, posts) != {} ==>
                      forall a :: (a in postAuthors <==> a in AuthorIdSet(thread, posts) && LookedUp(userOf(a)).Some?) &&
                                  (a in postAuthors ==> postAuthors[a] == LookedUp(userOf(a)).value))
    {
      if threadReply.Threw? || postsReply.Threw? {
        return;
      }
      var threadData := if threadReply.body.success then threadReply.body.thread else None;
      var postsData := if postsReply.body.success then postsReply.body.posts else [];
      thread := threadData;
      posts := postsData;
      if |postsData| > 0 {
        reactions := ReactionsMap(postsData, reactionsOf);
      }
      var ids := AuthorIds(threadData, postsData);
      if |ids| > 0 {
        assert ids[0] in ids;
        assert ids[0] in AuthorIdSet(threadData, postsData);
        postAuthors := AuthorsMap(ids, userOf);
      } else {
        assert forall a :: a !in AuthorIdSet(threadData, postsData);
      }
    }

    /** `handleReaction`: on success the reacted post's counts are replaced by
        those of the server's answer; nothing else changes. */
    method HandleReaction(postId: int, reply: Reply<ReactionsReply>)
      modifies this
      ensures reply.Returned? && reply.body.success ==>
                reactions == old(reactions)[postId := CountMap(reply.body.reactions)]
      ensures !(reply.Returned? && reply.body.success) ==> reactions == old(reactions)
      ensures forall p :: p != postId ==> (p in reactions <==> p in old(reactions)) &&
                                          (p in reactions ==> reactions[p] == old(reactions)[p])
      ensures thread == old(thread) && posts == old(posts) && postAuthors == old(postAuthors)
      ensures replyContent == old(replyContent) && error == old(error) && isSubmitting == old(isSubmitting)
    {
      if reply.Returned? && reply.body.success {
        var updated := ReactionCounts(reply.body.reactions);
        reactions := reactions[postId := updated];
      }
    }

    /** `handleSubmitReply`. `request` is what `createPost` is called with;
        (`createPost` sends the thread id and the text only); `reload` says whether `loadThread` is started again. */
    method HandleSubmitReply(reply: Reply<PostReply>) returns (request: Option<(int, string)>, reload: bool)
      modifies this
      ensures !isSubmitting
      ensures request == (if ValidateReply(old(replyContent)) == None then Some((threadId, old(replyContent))) else None)
      ensures reload <==> request.Some? && ReplyPosted(reply)
      ensures error == SubmitReplyError(old(replyContent), reply)
      ensures replyContent == (if reload then "" else old(replyContent))
      ensures thread == old(thread) && posts == old(posts) && reactions == old(reactions) && postAuthors == old(postAuthors)
    {
      var content := replyContent;
      error := "";
      isSubmitting := true;
      reload := false;
      var invalid := ValidateReply(content);
      if invalid.Some? {
        error := invalid.value;
        isSubmitting := false;
        return None, false;
      }
      request := Some((threadId, content));
      match reply {
        case Returned(r) =>
          if r.success {
            replyContent := "";
            reload := true;
          } else {
            error := OrElse(r.message, ReplyFailed);
          }
        case Threw(_) =>
          error := ReplyFailed;
      }
      isSubmitting := false;
    }
  }
}
