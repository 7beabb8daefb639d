/** The game-server status widget (src/components/ServerStatus.tsx): the three
    formatters it displays numbers with, and what one status fetch does to its
    state. Ping, rate and durations are whole numbers here. */
module ServerStatus {
  import opened Common

  // ---------------------------------------------------------------------------
  // Formatters

  /** `formatDuration`: `0m` for zero seconds; otherwise the whole minutes,
      split into hours and minutes once there is at least one hour. */
  function FormatDuration(seconds: int): string {
    if seconds == 0 then "0m"
    else
      var mins := seconds / 60;
      var hours := mins / 60;
      if hours > 0 then IntToString(hours) + "h " + IntToString(mins % 60) + "m"
      else IntToString(mins) + "m"
  }

  /** From one hour on, the text names the whole hours and the whole minutes
      left over, which are fewer than 60. */
  lemma DurationHoursMinutes(seconds: int, h: nat, m: nat)
    requires h > 0 && m < 60
    requires h * 3600 + m * 60 <= seconds < h * 3600 + m * 60 + 60
    ensures FormatDuration(seconds) == NatToString(h) + "h " + NatToString(m) + "m"
  {
    var mins := seconds / 60;
    assert mins == h * 60 + m;
    assert mins / 60 == h;
    assert mins % 60 == m;
  }

  /** Below one hour, the text is the whole minutes alone; zero seconds and
      anything under a minute both read `0m`. */
  lemma DurationMinutesOnly(seconds: int, m: nat)
    requires m < 60
    requires m * 60 <= seconds < m * 60 + 60
    ensures FormatDuration(seconds) == NatToString(m) + "m"
  {
    if seconds != 0 {
      assert seconds / 60 == m;
    }
  }

  /** A negative duration is not clamped: it prints a negative minute count. */
  lemma DurationNegative(seconds: int)
    requires seconds < 0
    ensures var r := FormatDuration(seconds); r[0] == '-' && r[|r| - 1] == 'm'
  {
    assert seconds / 60 < 0;
  }

  /** `formatPing`: `N/A` for a negative ping, else the number and `ms`. */
  function FormatPing(ping: int): (r: string)
    ensures ping < 0 <==> r == "N/A"
  {
    if ping < 0 then "N/A"
    else
      var r := IntToString(ping) + "ms";
      assert r[|r| - 1] == 's';
      r
  }

  /** A shown ping reads back: the digits before `ms` are the ping. */
  lemma PingReadsBack(ping: int)
    requires ping >= 0
    ensures var r := FormatPing(ping);
      |r| > 2 && r[|r| - 2..] == "ms" && AllDigits(r[..|r| - 2]) && DigitsValue(r[..|r| - 2]) == ping
  {
    var r := FormatPing(ping);
    assert r[..|r| - 2] == NatToString(ping);
    NatToStringRoundTrip(ping);
  }

  const Green: string := "#10b981"
  const Yellow: string := "#f59e0b"
  const Red: string := "#ef4444"

  /** `getStatusColor`. */
  function StatusColor(rate: int): (color: string)
    ensures color == Green <==> rate >= 80
    ensures color == Yellow <==> 50 <= rate < 80
    ensures color == Red <==> rate < 50
  {
    if rate >= 80 then Green else if rate >= 50 then Yellow else Red
  }

  /** How healthy a colour says the server is: red, yellow, green. */
  function Health(color: string): int {
    if color == Green then 2 else if color == Yellow then 1 else 0
  }

  /** A higher rate never shows a less healthy colour. */
  lemma StatusColorMonotone(a: int, b: int)
    requires a <= b
    ensures Health(StatusColor(a)) <= Health(StatusColor(b))
  {
  }

  // ---------------------------------------------------------------------------
  // Fetching

  /** The server description the widget shows (its numeric fields as integers). */
  datatype ServerData = ServerData(name: string, mapName: string, current: int, maxPlayers: int,
                                   ping: int, statusRate: int, online: bool)

  /** The fields of a `getServerStatus` reply the widget reads. */
  datatype StatusReply = StatusReply(success: bool, server: Option<ServerData>)

  /** The data a fetch delivers: only a reply with `success` and `server`. */
  function Fetched(reply: Reply<StatusReply>): (data: Option<ServerData>)
    ensures data.Some? <==> reply.Returned? && reply.body.success && reply.body.server.Some?
    ensures data.Some? ==> data == reply.body.server
  {
    match reply
    case Returned(r) => if r.success then r.server else None
    case Threw(_) => None
  }

  /** The error recorded by a fetch that delivered nothing: a reply without
      data is turned into an error of its own, a thrown error keeps its text. */
  function FetchError(reply: Reply<StatusReply>): string {
    match reply
    case Returned(_) => "Invalid response format"
    case Threw(m) => m
  }

  /** The widget's state. */
  class Widget {
    var serverData: Option<ServerData>
    var loading: bool
    var lastUpdate: Option<int>
    var error: Option<string>

    constructor ()
      ensures serverData == None && !loading && lastUpdate == None && error == None
    {
      serverData := None;
      loading := false;
      lastUpdate := None;
      error := None;
    }

    /** `fetchServerStatus` at time `now`. The spinner is raised only when no
        data is shown yet, and lowered on every path; a failure keeps what was
        shown before and records the error. */
    method FetchServerStatus(reply: Reply<StatusReply>, now: int)
      modifies this
      ensures !loading
      ensures Fetched(reply).Some? ==>
                serverData == Fetched(reply) && lastUpdate == Some(now) && error == None
      ensures Fetched(reply).None? ==>
                serverData == old(serverData) && lastUpdate == old(lastUpdate) && error == Some(FetchError(reply))
    {
      if serverData.None? {
        loading := true;
      }
      error := None;
      var failure: Option<string> := None;
      match reply {
        case Returned(r) =>
          if r.success && r.server.Some? {
            serverData := r.server;
            lastUpdate := Some(now);
          } else {
            failure := Some("Invalid response format");
          }
        case Threw(m) =>
          failure := Some(m);
      }
      if failure.Some? {
        if serverData.None? {
          serverData := None;
        }
        error := failure;
      }
      loading := false;
    }
  }

  /** A successful fetch followed by a failed refresh: the first data stays
      on screen beside the refresh's error. */
  method RefreshFailureKeepsData(first: ServerData, refresh: Reply<StatusReply>, t1: int, t2: int)
    returns (shown: Option<ServerData>, error: Option<string>, updated: Option<int>)
    requires Fetched(refresh).None?
    ensures shown == Some(first) && updated == Some(t1)
    ensures error == Some(FetchError(refresh))
  {
    var w := new Widget();
    w.FetchServerStatus(Returned(StatusReply(true, Some(first))), t1);
    w.FetchServerStatus(refresh, t2);
    shown, error, updated := w.serverData, w.error, w.lastUpdate;
  }
}
