/** The HTTP gateway every page goes through (src/api/client.ts): base URL,
    URL normalisation, header merging, the error-message fallback chain and
    the endpoint builders that carry a query string. `fetch`, `response.text()`
    and `JSON.parse` are not modelled; their results are inputs. */
module Gateway {
  import opened Common

  const DevApiBase: string := "http://localhost:5000/api"
  const ProdApiBase: string := "https://isolated-mellie-desynccheats-79e7a6ad.koyeb.app/api"

  /** `API_BASE`, chosen by the build mode. */
  function ApiBase(dev: bool): string {
    if dev then DevApiBase else ProdApiBase
  }

  // ---------------------------------------------------------------------------
  // Headers

  /** `getAuthHeaders()`, given what localStorage holds under 'token'. */
  function AuthHeaders(token: Option<string>): (h: map<string, string>)
    ensures "Authorization" in h <==> Truthy(token)
    ensures "Authorization" in h ==> h["Authorization"] == "Bearer " + token.value
    ensures h.Keys <= {"Authorization"}
  {
    if Truthy(token) then map["Authorization" := "Bearer " + token.value] else map[]
  }

  /** The header object of `apiCall`: Content-Type, then the auth header, then
      the caller's headers, each later key overriding an earlier one. */
  function RequestHeaders(token: Option<string>, caller: map<string, string>): (h: map<string, string>)
    ensures h.Keys == {"Content-Type"} + AuthHeaders(token).Keys + caller.Keys
    ensures forall k :: k in caller ==> h[k] == caller[k]
    ensures "Content-Type" !in caller ==> h["Content-Type"] == "application/json"
    ensures "Authorization" !in caller ==>
              ("Authorization" in h <==> Truthy(token)) &&
              ("Authorization" in h ==> h["Authorization"] == "Bearer " + token.value)
  {
    map["Content-Type" := "application/json"] + AuthHeaders(token) + caller
  }

  // ---------------------------------------------------------------------------
  // URL normalisation: `url.replace(/([^:]\/)\/+/g, '$1')`

  /** Length of the run of '/' at the start of `s`. */
  function SlashRun(s: string): (n: nat)
    ensures n <= |s|
    ensures forall i :: 0 <= i < n ==> s[i] == '/'
    ensures n < |s| ==> s[n] != '/'
  {
    if s != [] && s[0] == '/' then 1 + SlashRun(s[1..]) else 0
  }

  /** One global, left-to-right pass of the regular expression: where a
      character other than ':' is followed by two or more slashes, the whole
      match is replaced by that character and one slash and the scan resumes
      after the match; elsewhere the scan moves on by one character. */
  function NormalizeUrl(s: string): (r: string)
    ensures |r| <= |s|
    ensures r == [] <==> s == []
    ensures r != [] ==> r[0] == s[0]
    decreases |s|
  {
    if |s| >= 3 && s[0] != ':' && s[1] == '/' && s[2] == '/' then
      [s[0], '/'] + NormalizeUrl(s[2 + SlashRun(s[2..])..])
    else if s == [] then []
    else [s[0]] + NormalizeUrl(s[1..])
  }

  /** The URL `apiCall` fetches for `endpoint`. */
  function RequestUrl(dev: bool, endpoint: string): string {
    NormalizeUrl(ApiBase(dev) + "/" + endpoint)
  }

  /** No slash that follows a character other than ':' is followed by a second slash. */
  predicate Collapsed(r: string) {
    forall i :: 0 <= i && i + 2 < |r| && r[i] != ':' && r[i + 1] == '/' ==> r[i + 2] != '/'
  }

  /** `r` is `s` with some '/' characters deleted and every other character kept, in order. */
  predicate SlashesDeleted(r: string, s: string)
    decreases |s|
  {
    if s == [] then r == []
    else if r != [] && r[0] == s[0] then SlashesDeleted(r[1..], s[1..])
    else s[0] == '/' && SlashesDeleted(r, s[1..])
  }

  lemma {:induction false} SkipLeadingSlashes(r: string, u: string, k: nat)
    requires k <= |u| && forall i :: 0 <= i < k ==> u[i] == '/'
    requires r == [] || r[0] != '/'
    requires SlashesDeleted(r, u[k..])
    ensures SlashesDeleted(r, u)
    decreases k
  {
    if k > 0 {
      assert u[1..][k - 1..] == u[k..];
      SkipLeadingSlashes(r, u[1..], k - 1);
    }
  }

  /** Normalisation only deletes slashes: every other character survives, in order. */
  lemma {:induction false} NormalizeDeletesOnlySlashes(s: string)
    ensures SlashesDeleted(NormalizeUrl(s), s)
    decreases |s|
  {
    if |s| >= 3 && s[0] != ':' && s[1] == '/' && s[2] == '/' {
      var t := s[2 + SlashRun(s[2..])..];
      NormalizeDeletesOnlySlashes(t);
      CollapsedRunDeletesSlashes(s);
    } else if s != [] {
      NormalizeDeletesOnlySlashes(s[1..]);
      assert NormalizeUrl(s)[1..] == NormalizeUrl(s[1..]);
    }
  }

  /** The step of the lemma above where a run of slashes after a non-colon is cut to one. */
  lemma CollapsedRunDeletesSlashes(s: string)
    requires |s| >= 3 && s[0] != ':' && s[1] == '/' && s[2] == '/'
    requires SlashesDeleted(NormalizeUrl(s[2 + SlashRun(s[2..])..]), s[2 + SlashRun(s[2..])..])
    ensures SlashesDeleted(NormalizeUrl(s), s)
  {
    var u := s[2..];
    var n := SlashRun(u);
    var t := u[n..];
    assert t == s[2 + n..];
    var rest := NormalizeUrl(t);
    assert rest == [] || rest[0] != '/';
    SkipLeadingSlashes(rest, u, n);
    var r := NormalizeUrl(s);
    assert r == [s[0], '/'] + rest;
    assert r[1..][1..] == r[2..] == rest;
    assert s[1..][1..] == u;
    assert SlashesDeleted(r[1..], s[1..]);
  }

  /** After normalisation no collapsible run of slashes is left. */
  lemma {:induction false} NormalizeCollapses(s: string)
    ensures Collapsed(NormalizeUrl(s))
    decreases |s|
  {
    var r := NormalizeUrl(s);
    if |s| >= 3 && s[0] != ':' && s[1] == '/' && s[2] == '/' {
      var t := s[2 + SlashRun(s[2..])..];
      var rest := NormalizeUrl(t);
      NormalizeCollapses(t);
      assert r == [s[0], '/'] + rest;
      assert t != [] ==> t[0] != '/';
      forall i | 0 <= i && i + 2 < |r| && r[i] != ':' && r[i + 1] == '/'
        ensures r[i + 2] != '/'
      {
        if i >= 2 {
          assert r[i] == rest[i - 2] && r[i + 1] == rest[i - 1] && r[i + 2] == rest[i];
        }
      }
    } else if s != [] {
      var rest := NormalizeUrl(s[1..]);
      NormalizeCollapses(s[1..]);
      assert r == [s[0]] + rest;
      forall i | 0 <= i && i + 2 < |r| && r[i] != ':' && r[i + 1] == '/'
        ensures r[i + 2] != '/'
      {
        if i == 0 {
          // s[0] was copied and s[1] is '/', so s[2] is not '/' and is copied too.
          assert s[1] == '/' && |s| >= 3 && s[2] != '/';
          var s1 := s[1..];
          assert !(s1[1] == '/');
          assert rest == [s1[0]] + NormalizeUrl(s1[1..]);
          assert r[2] == NormalizeUrl(s1[1..])[0] == s[2];
        } else {
          assert r[i] == rest[i - 1] && r[i + 1] == rest[i] && r[i + 2] == rest[i + 1];
        }
      }
    }
  }

  /** A URL with no collapsible run is left exactly as it is. */
  lemma {:induction false} NormalizeFixpoint(s: string)
    requires Collapsed(s)
    ensures NormalizeUrl(s) == s
    decreases |s|
  {
    if s != [] {
      var tail := s[1..];
      assert Collapsed(tail) by {
        forall i | 0 <= i && i + 2 < |tail| && tail[i] != ':' && tail[i + 1] == '/'
          ensures tail[i + 2] != '/'
        {
          assert tail[i] == s[i + 1] && tail[i + 1] == s[i + 2] && tail[i + 2] == s[i + 3];
        }
      }
      NormalizeFixpoint(tail);
      assert s == [s[0]] + tail;
    }
  }

  /** Normalising twice is normalising once. */
  lemma NormalizeIdempotent(s: string)
    ensures NormalizeUrl(NormalizeUrl(s)) == NormalizeUrl(s)
  {
    NormalizeCollapses(s);
    NormalizeFixpoint(NormalizeUrl(s));
  }

  /** The regular expression, character by character: a character is
      deleted exactly when it is a '/' whose previous character is a '/' and
      whose character before that exists and is not ':'. `before2` and
      `before1` are the two characters before `c`, `None` before the start. */
  predicate Deleted(before2: Option<char>, before1: Option<char>, c: char) {
    c == '/' && before1 == Some('/') && before2.Some? && before2.value != ':'
  }

  /** The characters of `s` the rule keeps, reading left to right with the
      two characters that came before `s`. */
  function Survivors(before2: Option<char>, before1: Option<char>, s: string): string
    decreases |s|
  {
    if s == [] then []
    else (if Deleted(before2, before1, s[0]) then [] else [s[0]]) + Survivors(before1, Some(s[0]), s[1..])
  }

  /** Only the previous character can decide the first one's fate, and only
      when it is a '/': otherwise the one before it does not matter. */
  lemma SurvivorsLastContext(a: Option<char>, a2: Option<char>, b: Option<char>, t: string)
    requires b != Some('/')
    ensures Survivors(a, b, t) == Survivors(a2, b, t)
  {
  }

  /** Text that does not start with a '/' is read the same after any context. */
  lemma SurvivorsContextFree(a: Option<char>, b: Option<char>, a2: Option<char>, b2: Option<char>, t: string)
    requires t == [] || t[0] != '/'
    ensures Survivors(a, b, t) == Survivors(a2, b2, t)
  {
    if t != [] {
      SurvivorsLastContext(b, b2, Some(t[0]), t[1..]);
    }
  }

  /** After a character other than ':' and one '/', the rest of a run of
      slashes is deleted whole. */
  lemma {:induction false} SurvivorsSkipRun(c: Option<char>, u: string)
    requires c.Some? && c.value != ':'
    ensures Survivors(c, Some('/'), u) == Survivors(None, None, u[SlashRun(u)..])
    decreases |u|
  {
    if u != [] && u[0] == '/' {
      assert u[1..][SlashRun(u[1..])..] == u[SlashRun(u)..];
      SurvivorsSkipRun(Some('/'), u[1..]);
    } else {
      SurvivorsContextFree(c, Some('/'), None, None, u);
    }
  }

  /** The scan agrees with the rule on any text whose first two characters
      the context does not delete. */
  lemma {:induction false} NormalizeFollowsRule(before2: Option<char>, before1: Option<char>, s: string)
    requires s != [] ==> !Deleted(before2, before1, s[0])
    requires |s| >= 2 ==> !Deleted(before1, Some(s[0]), s[1])
    ensures NormalizeUrl(s) == Survivors(before2, before1, s)
    decreases |s|
  {
    if |s| >= 3 && s[0] != ':' && s[1] == '/' && s[2] == '/' {
      NormalizeFollowsRule(None, None, s[2 + SlashRun(s[2..])..]);
      MatchFollowsRule(before2, before1, s);
    } else if s != [] {
      NormalizeFollowsRule(before1, Some(s[0]), s[1..]);
    }
  }

  /** The step of the lemma above where the scan matches at the first character. */
  lemma MatchFollowsRule(before2: Option<char>, before1: Option<char>, s: string)
    requires |s| >= 3 && s[0] != ':' && s[1] == '/' && s[2] == '/'
    requires !Deleted(before2, before1, s[0]) && !Deleted(before1, Some(s[0]), s[1])
    requires NormalizeUrl(s[2 + SlashRun(s[2..])..]) == Survivors(None, None, s[2 + SlashRun(s[2..])..])
    ensures NormalizeUrl(s) == Survivors(before2, before1, s)
  {
    var u := s[2..];
    var t := s[2 + SlashRun(u)..];
    SurvivorsSkipRun(Some(s[0]), u);
    assert u[SlashRun(u)..] == t;
    var rest := Survivors(None, None, t);
    assert s[1..][1..] == u;
    assert Survivors(before1, Some(s[0]), s[1..]) == [s[1]] + Survivors(Some(s[0]), Some('/'), u);
    assert [s[0], '/'] + rest == [s[0]] + ([s[1]] + rest);
  }

  /** `NormalizeUrl` is the regular expression's rule applied to every
      character of the URL. */
  lemma NormalizeMatchesRule(s: string)
    ensures NormalizeUrl(s) == Survivors(None, None, s)
  {
    NormalizeFollowsRule(None, None, s);
  }

  /** A run of slashes after a letter keeps one slash. */
  lemma NormalizeExampleRun()
    ensures NormalizeUrl("a///b") == "a/b"
  {
    NormalizeMatchesRule("a///b");
  }

  /** A run after ':' keeps two slashes, as a scheme's "//" is kept. */
  lemma NormalizeExampleColon()
    ensures NormalizeUrl(":///") == "://"
    ensures NormalizeUrl("x/:///") == "x/://"
  {
    NormalizeMatchesRule(":///");
    NormalizeMatchesRule("x/:///");
  }

  /** A run at the very start keeps two slashes: the pattern needs a character before them. */
  lemma NormalizeExampleStart()
    ensures NormalizeUrl("///") == "//"
  {
    NormalizeMatchesRule("///");
  }

  // ---------------------------------------------------------------------------
  // Responses and the error-message fallback chain

  /** What `JSON.parse(errorText)` does with the error body. */
  datatype ErrorBody =
    | NotJson                              // JSON.parse throws
    | JsonNull                             // parses to null: reading `.message` throws
    | JsonValue(message: Option<string>)   // any other value; `message` as a string if present

  /** A response as `apiCall` sees it: status, raw text, that text as JSON for
      the error path, and what `response.json()` yields on the success path. */
  datatype Response<T> = Response(status: int, text: string, errorBody: ErrorBody, json: Reply<T>)

  /** Either `fetch` rejected (network failure), or a response arrived. */
  datatype Exchange<T> = NoResponse(failure: string) | Responded(response: Response<T>)

  predicate IsOk(status: int) {
    200 <= status <= 299
  }

  function StatusMessage(status: int): string {
    "API Error: " + IntToString(status)
  }

  /** The message of the Error thrown for a non-ok response. */
  function ErrorMessage(status: int, text: string, body: ErrorBody): (m: string)
    ensures m != ""
    ensures body.JsonValue? ==> m == (if Truthy(body.message) then body.message.value else StatusMessage(status))
    ensures !body.JsonValue? ==> m == (if text != "" then text else StatusMessage(status))
  {
    match body
    case JsonValue(message) => OrElse(message, StatusMessage(status))
    case _ => if text != "" then text else StatusMessage(status)
  }

  /** `apiCall(endpoint, options)` once the exchange is known. */
  function ApiCall<T>(x: Exchange<T>): (r: Reply<T>)
    ensures x.NoResponse? ==> r == Threw(x.failure)
    ensures x.Responded? && !IsOk(x.response.status) ==>
              r == Threw(ErrorMessage(x.response.status, x.response.text, x.response.errorBody)) && r.message != ""
    ensures x.Responded? && IsOk(x.response.status) ==> r == x.response.json
  {
    match x
    case NoResponse(failure) => Threw(failure)
    case Responded(resp) =>
      if !IsOk(resp.status) then Threw(ErrorMessage(resp.status, resp.text, resp.errorBody))
      else resp.json
  }

  /** A failed call's message is the server's own message, the raw body, or
      `API Error: <status>`, and it is never empty. */
  lemma ErrorMessageSources(status: int, text: string, body: ErrorBody)
    ensures var m := ErrorMessage(status, text, body);
      m != "" && (m == StatusMessage(status) || m == text || (body.JsonValue? && body.message == Some(m)))
  {
  }

  // ---------------------------------------------------------------------------
  // Endpoints with query strings

  /** `forum/threads${categoryId ? `?categoryId=${categoryId}` : ''}` */
  function ThreadsEndpoint(categoryId: Option<int>): string {
    if categoryId.Some? && categoryId.value != 0 then "forum/threads?categoryId=" + IntToString(categoryId.value)
    else "forum/threads"
  }

  /** The threads path is `forum/threads`, followed by a query only when a
      non-zero category id is given; a positive id is written in decimal and
      reads back as itself. */
  lemma ThreadsEndpointQuery(categoryId: Option<int>)
    ensures "forum/threads" <= ThreadsEndpoint(categoryId)
    ensures ('?' in ThreadsEndpoint(categoryId)) <==> categoryId.Some? && categoryId.value != 0
    ensures categoryId.Some? && categoryId.value > 0 ==>
              var e := ThreadsEndpoint(categoryId);
              |e| > 25 && e[..25] == "forum/threads?categoryId=" &&
              AllDigits(e[25..]) && DigitsValue(e[25..]) == categoryId.value
  {
    if categoryId.Some? && categoryId.value != 0 {
      var digits := IntToString(categoryId.value);
      var e := "forum/threads?categoryId=" + digits;
      assert e[..13] == "forum/threads";
      assert e[25..] == digits;
      assert '?' !in digits by {
        if categoryId.value > 0 {
          assert AllDigits(digits);
        } else {
          assert AllDigits(digits[1..]);
          assert forall i :: 1 <= i < |digits| ==> digits[i] == digits[1..][i - 1];
        }
      }
      if categoryId.value > 0 {
        NatToStringRoundTrip(categoryId.value);
      }
    }
  }

  /** Characters `application/x-www-form-urlencoded` serialisation leaves as they are. */
  predicate Unreserved(c: char) {
    ('a' <= c <= 'z') || ('A' <= c <= 'Z') || ('0' <= c <= '9') || c == '*' || c == '-' || c == '.' || c == '_'
  }

  function HexDigit(d: int): (c: char)
    requires 0 <= d < 16
    ensures ('0' <= c <= '9') || ('A' <= c <= 'F')
  {
    if d < 10 then DigitChar(d) else ('A' as int + d - 10) as char
  }

  /** UTF-8 encoding of one code point. */
  function Utf8(c: char): (bytes: seq<int>)
    ensures 1 <= |bytes| <= 4
    ensures forall i :: 0 <= i < |bytes| ==> 0 <= bytes[i] < 256
  {
    var cp := c as int;
    if cp < 0x80 then [cp]
    else if cp < 0x800 then [0xC0 + cp / 0x40, 0x80 + cp % 0x40]
    else if cp < 0x10000 then [0xE0 + cp / 0x1000, 0x80 + (cp / 0x40) % 0x40, 0x80 + cp % 0x40]
    else [0xF0 + cp / 0x40000, 0x80 + (cp / 0x1000) % 0x40, 0x80 + (cp / 0x40) % 0x40, 0x80 + cp % 0x40]
  }

  function PercentBytes(bytes: seq<int>): (r: string)
    requires forall i :: 0 <= i < |bytes| ==> 0 <= bytes[i] < 256
    ensures forall i :: 0 <= i < |r| ==> r[i] == '%' || ('0' <= r[i] <= '9') || ('A' <= r[i] <= 'F')
  {
    if bytes == [] then ""
    else ['%', HexDigit(bytes[0] / 16), HexDigit(bytes[0] % 16)] + PercentBytes(bytes[1..])
  }

  /** Characters that can appear in a serialised name or value. */
  predicate EncodedChar(c: char) {
    Unreserved(c) || c == '+' || c == '%'
  }

  function EncodeChar(c: char): (r: string)
    ensures r != [] && forall i :: 0 <= i < |r| ==> EncodedChar(r[i])
  {
    if Unreserved(c) then [c]
    else if c == ' ' then "+"
    else PercentBytes(Utf8(c))
  }

  /** The form-urlencoded serialisation `URLSearchParams.toString()` applies to each name and value. */
  function FormEncode(s: string): (r: string)
    ensures forall i :: 0 <= i < |r| ==> EncodedChar(r[i])
    ensures s != [] ==> r != []
  {
    if s == [] then "" else EncodeChar(s[0]) + FormEncode(s[1..])
  }

  /** A string of unreserved characters is serialised unchanged. */
  lemma {:induction false} FormEncodeUnreserved(s: string)
    requires forall i :: 0 <= i < |s| ==> Unreserved(s[i])
    ensures FormEncode(s) == s
  {
    if s != [] {
      FormEncodeUnreserved(s[1..]);
      assert s == [s[0]] + s[1..];
    }
  }

  /** An encoded value never contains '&', '=' or '?', so it cannot start another parameter. */
  lemma FormEncodeIsolated(s: string)
    ensures '&' !in FormEncode(s) && '=' !in FormEncode(s) && '?' !in FormEncode(s)
  {
  }

  /** One serialised `name=value` pair. */
  function Param(name: string, value: string): string {
    FormEncode(name) + "=" + FormEncode(value)
  }

  /** `URLSearchParams.toString()` for parameters appended in this order. */
  function SearchParamsString(params: seq<(string, string)>): (q: string)
    ensures q == "" <==> params == []
  {
    if params == [] then ""
    else
      var first := Param(params[0].0, params[0].1);
      assert first[|FormEncode(params[0].0)|] == '=';
      if |params| == 1 then first else first + "&" + SearchParamsString(params[1..])
  }

  /** A parameter whose name is lower-case ASCII letters, as `status` and
      `type` are, serialises as the name itself, '=' and the encoded value. */
  lemma LowerNameParam(name: string, value: string)
    requires forall i :: 0 <= i < |name| ==> 'a' <= name[i] <= 'z'
    ensures Param(name, value) == name + "=" + FormEncode(value)
  {
    FormEncodeUnreserved(name);
  }

  /** `api.getReports(status, type)`: the endpoint it requests. `status` is
      appended before `type`, each only when truthy, and '?' is emitted only
      when at least one was appended. */
  method ReportsEndpoint(status: Option<string>, kind: Option<string>) returns (endpoint: string)
    ensures endpoint == "admin/reports" <==> !Truthy(status) && !Truthy(kind)
    ensures Truthy(status) && Truthy(kind) ==>
              endpoint == "admin/reports?" + (Param("status", status.value) + "&" + Param("type", kind.value))
    ensures Truthy(status) && !Truthy(kind) ==> endpoint == "admin/reports?" + Param("status", status.value)
    ensures !Truthy(status) && Truthy(kind) ==> endpoint == "admin/reports?" + Param("type", kind.value)
  {
    var params: seq<(string, string)> := [];
    if Truthy(status) {
      params := params + [("status", status.value)];
    }
    if Truthy(kind) {
      params := params + [("type", kind.value)];
    }
    var query := SearchParamsString(params);
    endpoint := if query != "" then "admin/reports?" + query else "admin/reports";
    if Truthy(status) && Truthy(kind) {
      assert params[1..] == [("type", kind.value)];
      var p1, p2 := Param("status", status.value), Param("type", kind.value);
      assert SearchParamsString(params[1..]) == p2;
      assert query == p1 + "&" + p2;
    }
  }
}
