/** The sign-in / registration page (src/pages/Auth.tsx): the email-domain
    check and the classification of what the backend answered. */
module Auth {
  import opened Common
  import Gateway

  /** The user record the backend returns (the fields the client reads). The
      badge is a plain string; the client compares it only for equality. */
  datatype User = User(uid: int, email: string, username: string, badge: string,
                       banned: bool, banReason: Option<string>)

  const AllowedDomains: seq<string> := ["@gmail.com", "@hotmail.com", "@outlook.com"]

  /** `suffixes.some(d => s.endsWith(d))` */
  function EndsWithAny(s: string, suffixes: seq<string>): (b: bool)
    ensures b <==> exists i :: 0 <= i < |suffixes| && EndsWith(s, suffixes[i])
  {
    if suffixes == [] then false
    else
      assert forall i :: 0 < i < |suffixes| ==> suffixes[i] == suffixes[1..][i - 1];
      EndsWith(s, suffixes[0]) || EndsWithAny(s, suffixes[1..])
  }

  /** `validateEmail`: the lower-cased address ends with one of the three allowed domains. */
  function ValidateEmail(email: string): (ok: bool)
    ensures ok <==> EndsWith(ToLower(email), "@gmail.com") ||
                    EndsWith(ToLower(email), "@hotmail.com") ||
                    EndsWith(ToLower(email), "@outlook.com")
  {
    assert AllowedDomains[0] == "@gmail.com" && AllowedDomains[1] == "@hotmail.com" && AllowedDomains[2] == "@outlook.com";
    EndsWithAny(ToLower(email), AllowedDomains)
  }

  /** The check ignores letter case. */
  lemma ValidateEmailIgnoresCase(email: string)
    ensures ValidateEmail(ToLower(email)) == ValidateEmail(email)
  {
    ToLowerIdempotent(email);
  }

  /** An accepted address has at least as many characters as "@gmail.com". */
  lemma ValidEmailLength(email: string)
    requires ValidateEmail(email)
    ensures |email| >= 10
  {
  }

  /** The fields of a login or register reply that the page reads. */
  datatype AuthReply = AuthReply(success: bool, user: Option<User>, token: Option<string>, message: Option<string>)

  /** What `JSON.parse(error.message.split(' - ')[1] || '{}')` gives in the banned branch. */
  datatype BanDetail = Unparsable | Parsed(banReason: Option<string>)

  /** What one submit leads to. */
  datatype Outcome =
    | InvalidEmail
    | SignedIn(token: string, user: User)   // token stored, `onLogin(user)` called
    | Banned(reason: string)                // the banned modal is shown
    | Failed(message: string)               // an inline error is shown

  const InvalidEmailMessage: string := "Email must be from Gmail, Hotmail, or Outlook"
  const NoReason: string := "No reason provided"
  const BannedFallback: string := "Your account has been banned. Contact support for more information."
  const DuplicateMessage: string := "Email or username already exists"
  const InvitationMessage: string := "Invalid invitation code or missing information"
  const NetworkMessage: string := "Network error. Please try again."

  /** The branch taken on a reply that arrived. */
  function ReplyOutcome(isLogin: bool, r: AuthReply): Outcome {
    if r.success && r.user.Some? && Truthy(r.token) then SignedIn(r.token.value, r.user.value)
    else if isLogin && r.user.Some? && r.user.value.banned then Banned(OrElse(r.user.value.banReason, NoReason))
    else Failed(OrElse(r.message, if isLogin then "Invalid email or password" else "Registration failed"))
  }

  /** The branch taken on a thrown error, tested in this order. */
  function ThrownOutcome(message: string, detail: BanDetail): Outcome {
    if Contains(message, "Account is banned") then
      (match detail
       case Unparsable => Banned(BannedFallback)
       case Parsed(reason) => Banned(OrElse(reason, NoReason)))
    else if Contains(message, "409") then Failed(DuplicateMessage)
    else if Contains(message, "400") then Failed(InvitationMessage)
    else Failed(NetworkMessage)
  }

  /** `handleSubmit` as a decision: validation first, then the reply or the error. */
  function SubmitOutcome(isLogin: bool, email: string, reply: Reply<AuthReply>, detail: BanDetail): Outcome {
    if !ValidateEmail(email) then InvalidEmail
    else
      match reply
      case Returned(r) => ReplyOutcome(isLogin, r)
      case Threw(m) => ThrownOutcome(m, detail)
  }

  /** The inline error left on screen after a submit (it is cleared first). */
  function ErrorShown(o: Outcome): string {
    match o
    case InvalidEmail => InvalidEmailMessage
    case Failed(m) => m
    case _ => ""
  }

  /** Signing in needs a valid address and a reply with `success`, `user` and a non-empty `token`. */
  lemma SignInRequirements(isLogin: bool, email: string, reply: Reply<AuthReply>, detail: BanDetail)
    requires SubmitOutcome(isLogin, email, reply, detail).SignedIn?
    ensures ValidateEmail(email) && reply.Returned?
    ensures var o := SubmitOutcome(isLogin, email, reply, detail);
      reply.body.success && reply.body.user == Some(o.user) && reply.body.token == Some(o.token) && o.token != ""
  {
  }

  /** A failed login whose reply names a banned user shows that user's reason, or the default. */
  lemma BannedLoginShowsReason(email: string, r: AuthReply, detail: BanDetail)
    requires ValidateEmail(email)
    requires !(r.success && r.user.Some? && Truthy(r.token))
    requires r.user.Some? && r.user.value.banned
    ensures SubmitOutcome(true, email, Returned(r), detail) ==
            Banned(if Truthy(r.user.value.banReason) then r.user.value.banReason.value else NoReason)
  {
  }

  /** Registration never shows the banned modal for a reply that arrived. */
  lemma RegisterReplyNeverBanned(email: string, r: AuthReply, detail: BanDetail)
    ensures !SubmitOutcome(false, email, Returned(r), detail).Banned?
  {
  }

  /** A 409 answered with a JSON message (the conflict message the backend
      sends) is reported as a network error: the page looks for "409" in the
      message, and the gateway has replaced the status by the server's text. */
  lemma ConflictWithServerMessage(isLogin: bool, email: string, message: string, text: string, detail: BanDetail)
    requires ValidateEmail(email)
    requires message != ""
    requires !Contains(message, "Account is banned") && !Contains(message, "409") && !Contains(message, "400")
    ensures var x: Gateway.Exchange<AuthReply> :=
              Gateway.Responded(Gateway.Response(409, text, Gateway.JsonValue(Some(message)), Threw("")));
            SubmitOutcome(isLogin, email, Gateway.ApiCall(x), detail) == Failed(NetworkMessage)
  {
  }

  /** The text the gateway raises for a 409 without a message. */
  lemma ConflictStatusMessage()
    ensures Gateway.StatusMessage(409) == "API Error: 409"
  {
    assert NatToString(4) == "4";
    assert NatToString(40) == "40";
  }

  /** "API Error: 409" includes "409". */
  lemma ConflictStatusNamesCode()
    ensures Contains("API Error: 409", "409")
  {
    var m := "API Error: 409";
    assert m[11..14] == "409";
    ContainsAt(m, "409", 11);
  }

  /** "API Error: 409" is too short to include "Account is banned". */
  lemma ConflictStatusNotBan()
    ensures !Contains("API Error: 409", "Account is banned")
  {
    NotContainsLonger("API Error: 409", "Account is banned");
  }

  /** A 409 whose body has no message reaches the page as "API Error: 409"
      and is reported as a duplicate account. */
  lemma ConflictWithoutMessage(isLogin: bool, email: string, detail: BanDetail)
    requires ValidateEmail(email)
    ensures var x: Gateway.Exchange<AuthReply> :=
              Gateway.Responded(Gateway.Response(409, "", Gateway.JsonValue(None), Threw("")));
            SubmitOutcome(isLogin, email, Gateway.ApiCall(x), detail) == Failed(DuplicateMessage)
  {
    ConflictStatusMessage();
    ConflictStatusNamesCode();
    ConflictStatusNotBan();
  }

  /** The page's state: the form mode, the inline error and the banned modal. */
  class AuthPage {
    var isLogin: bool
    var error: string
    var bannedShow: bool
    var bannedReason: string

    constructor ()
      ensures isLogin && error == "" && !bannedShow && bannedReason == ""
    {
      isLogin := true;
      error := "";
      bannedShow := false;
      bannedReason := "";
    }

    /** `handleSubmit`. `requested` says whether the login/register request was
        made; `onLogin` is the user handed to the `onLogin` callback, if any. */
    method HandleSubmit(email: string, storage: TokenStore, reply: Reply<AuthReply>, detail: BanDetail)
      returns (requested: bool, onLogin: Option<User>)
      modifies this, storage
      ensures requested <==> ValidateEmail(email)
      ensures isLogin == old(isLogin)
      ensures var o := SubmitOutcome(old(isLogin), email, reply, detail);
        && error == ErrorShown(o)
        && (o.SignedIn? ==> storage.token == Some(o.token) && onLogin == Some(o.user))
        && (!o.SignedIn? ==> storage.token == old(storage.token) && onLogin == None)
        && (o.Banned? ==> bannedShow && bannedReason == o.reason)
        && (!o.Banned? ==> bannedShow == old(bannedShow) && bannedReason == old(bannedReason))
    {
      error := "";
      onLogin := None;
      requested := ValidateEmail(email);
      var outcome := SubmitOutcome(isLogin, email, reply, detail);
      match outcome {
        case SignedIn(token, user) =>
          storage.token := Some(token);
          onLogin := Some(user);
        case Banned(reason) =>
          bannedShow := true;
          bannedReason := reason;
        case Failed(m) =>
          error := m;
        case InvalidEmail =>
          error := InvalidEmailMessage;
      }
    }
  }
}
