/** The live chat box (src/components/LiveChat.tsx): loading and sending
    messages, the online counter in its header, and the badge colours. */
module LiveChat {
  import opened Common

  datatype ChatMessage = ChatMessage(id: int, userUid: int, username: string, userBadge: string,
                                     content: string, createdAt: string)

  /** The fields of a chat reply the box reads: `success` and, when listing, the messages. */
  datatype MessagesReply = MessagesReply(success: bool, messages: seq<ChatMessage>)

  // ---------------------------------------------------------------------------
  // Header

  /** The distinct user ids among `messages` (`new Set(messages.map(m => m.userUid))`). */
  function UidSet(messages: seq<ChatMessage>): set<int> {
    if messages == [] then {} else {messages[0].userUid} + UidSet(messages[1..])
  }

  /** The set holds exactly the ids of the authors of the messages. */
  lemma {:induction false} UidSetMembers(messages: seq<ChatMessage>, uid: int)
    ensures uid in UidSet(messages) <==> exists i :: 0 <= i < |messages| && messages[i].userUid == uid
  {
    if messages != [] {
      UidSetMembers(messages[1..], uid);
      if uid in UidSet(messages[1..]) {
        var i :| 0 <= i < |messages[1..]| && messages[1..][i].userUid == uid;
        assert messages[i + 1].userUid == uid;
      }
      if exists i :: 0 <= i < |messages| && messages[i].userUid == uid {
        var i :| 0 <= i < |messages| && messages[i].userUid == uid;
        if i > 0 {
          assert messages[1..][i - 1].userUid == uid;
        }
      }
    }
  }

  /** There are never more distinct users than messages, and at least one
      when there is a message. */
  lemma {:induction false} UidSetSize(messages: seq<ChatMessage>)
    ensures |UidSet(messages)| <= |messages|
    ensures messages != [] ==> |UidSet(messages)| >= 1
  {
    if messages != [] {
      UidSetSize(messages[1..]);
    }
  }

  /** The counter in the header. */
  function UsersCount(messages: seq<ChatMessage>): (text: string)
    ensures text == "No users" <==> messages == []
  {
    if |messages| > 0 then
      var t := IntToString(|UidSet(messages)|) + " online";
      assert t[|t| - 1] == 'e' && t[|t| - 2] == 'n';
      t
    else "No users"
  }

  /** With messages, the header names how many different users wrote them. */
  lemma UsersCountNamesUsers(messages: seq<ChatMessage>)
    requires messages != []
    ensures var text := UsersCount(messages);
      |text| > 7 && text[|text| - 7..] == " online" &&
      AllDigits(text[..|text| - 7]) && DigitsValue(text[..|text| - 7]) == |UidSet(messages)|
  {
    var n := |UidSet(messages)|;
    var digits := NatToString(n);
    assert UsersCount(messages) == digits + " online";
    assert (digits + " online")[..|digits|] == digits;
    NatToStringRoundTrip(n);
  }

  /** A message is shown as the viewer's own when its author is the viewer. */
  predicate IsOwn(message: ChatMessage, uid: int) {
    message.userUid == uid
  }

  /** A viewer with a message of their own on screen is counted among the users online. */
  lemma OwnMessageCounted(messages: seq<ChatMessage>, uid: int, i: nat)
    requires i < |messages| && IsOwn(messages[i], uid)
    ensures uid in UidSet(messages)
  {
    UidSetMembers(messages, uid);
  }

  // ---------------------------------------------------------------------------
  // Badge colours

  const DefaultColor: string := "#6b7280"

  const BadgeColors: map<string, string> :=
    map["Owner" := "#ff4444", "Admin" := "#ff6b6b", "Moderator" := "#10b981",
        "Premium" := "#8b5cf6", "Known" := "#6366f1", "Member" := "#6b7280"]

  /** `getBadgeColor`: the colour of a known badge, the default gray otherwise. */
  function BadgeColor(badge: string): (color: string)
    ensures badge in BadgeColors ==> color == BadgeColors[badge]
    ensures badge !in BadgeColors ==> color == DefaultColor
  {
    if badge in BadgeColors then BadgeColors[badge] else DefaultColor
  }

  /** A badge outside the table, such as "Support", is coloured like "Member". */
  lemma UnknownBadgeLooksLikeMember(badge: string)
    requires badge !in BadgeColors
    ensures BadgeColor(badge) == BadgeColor("Member")
  {
  }

  /** Every badge in the table has a colour of its own, so only badges outside
      the table share one (with "Member"). */
  lemma TableColoursDistinct(a: string, b: string)
    requires a in BadgeColors && b in BadgeColors && a != b
    ensures BadgeColor(a) != BadgeColor(b)
  {
  }

  // ---------------------------------------------------------------------------
  // State

  /** The chat box's state. */
  class ChatBox {
    const uid: int
    var messages: seq<ChatMessage>
    var newMessage: string
    var isLoading: bool

    constructor (uid: int)
      ensures this.uid == uid && messages == [] && newMessage == "" && !isLoading
    {
      this.uid := uid;
      messages := [];
      newMessage := "";
      isLoading := false;
    }

    /** `loadMessages`: the list is replaced only by a reply with `success`. */
    method LoadMessages(reply: Reply<MessagesReply>)
      modifies this`messages
      ensures reply.Returned? && reply.body.success ==> messages == reply.body.messages
      ensures !(reply.Returned? && reply.body.success) ==> messages == old(messages)
    {
      if reply.Returned? && reply.body.success {
        messages := reply.body.messages;
      }
    }

    /** `sendMessage`. A blank input, or a send already in flight, is
        ignored. Otherwise the text is posted as typed; a reply with
        `success` clears the input and loads the messages again (`reload`
        answers that load); `isLoading` ends false on every path. `sent` is
        the text posted, if any. */
    method SendMessage(reply: Reply<MessagesReply>, reload: Reply<MessagesReply>) returns (sent: Option<string>)
      modifies this`messages, this`newMessage, this`isLoading
      ensures sent.Some? <==> !IsBlank(old(newMessage)) && !old(isLoading)
      ensures sent.None? ==> messages == old(messages) && newMessage == old(newMessage) && isLoading == old(isLoading)
      ensures sent.Some? ==> sent.value == old(newMessage) && !isLoading
      ensures sent.Some? && reply.Returned? && reply.body.success ==>
                newMessage == "" &&
                messages == (if reload.Returned? && reload.body.success then reload.body.messages else old(messages))
      ensures sent.Some? && !(reply.Returned? && reply.body.success) ==>
                newMessage == old(newMessage) && messages == old(messages)
    {
      var text := newMessage;
      if IsBlank(text) || isLoading {
        return None;
      }
      isLoading := true;
      sent := Some(text);
      if reply.Returned? && reply.body.success {
        newMessage := "";
        LoadMessages(reload);
      }
      isLoading := false;
    }
  }

  /** After a send that went through, sending again without typing is
      ignored: the input was cleared, so nothing is posted twice. */
  method ResendAfterSuccessIgnored(uid: int, text: string, ack: MessagesReply,
                                   reload: Reply<MessagesReply>, again: Reply<MessagesReply>)
    returns (first: Option<string>, second: Option<string>)
    requires !IsBlank(text) && ack.success
    ensures first == Some(text) && second == None
  {
    var box := new ChatBox(uid);
    box.newMessage := text;
    first := box.SendMessage(Returned(ack), reload);
    BlankIffAllWhitespace(box.newMessage);
    second := box.SendMessage(again, again);
  }
}
