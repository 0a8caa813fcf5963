/** The marketer dashboard's session controller as a state machine over plain values: the
    module-level flags of the page, its session store, the pending attendance attempt, the
    open outage countdowns and the requests sent so far. Every browser callback or timer
    firing is one `Event`; `Step` is what the page's handler does with it. The wall clock is
    an integer number of seconds carried by the events that read it, and every backend call is
    reduced to its outcome. */
module MarketerSession {
  import opened JsText
  import opened Browser
  import opened Backend

  /** `offlineGracePeriod`, in seconds. */
  const GracePeriod: int := 120

  // Retry delays of the attendance request, in milliseconds.
  const WaitForFixMs: nat := 2000
  const DeclinedRetryMs: nat := 5000
  const ErrorRetryMs: nat := 10000

  // Redirect delays to the login page, in milliseconds.
  const ManualLogoutRedirectMs: nat := 1000
  const FailedLogoutRedirectMs: nat := 2000
  const AutoDisconnectRedirectMs: nat := 3000

  /** Where the one chain of `logAttendanceToDatabase` calls stands: before the first
      `getCurrentPosition` callback, waiting on a `setTimeout` retry, waiting on the backend, or
      over (nothing will call it again). */
  datatype Attempt = AwaitingFix | Scheduled(delayMs: nat) | InFlight | Finished

  /** A request the page sends to the backend (a `fetch` body or a `sendBeacon` payload). The
      marketer fields come from the stored `marketerData` record, kept here as that stored text. */
  datatype Request =
    | LogAttendance(marketer: string, loginCoordinates: string)
    | LogoutMarketer(marketer: string, logoutCoordinates: string, logoutType: string)

  datatype Navigation = Stay | ToLogin(delayMs: nat)

  datatype Session = Session(
    items: map<string, string>,           // sessionStorage
    started: bool,                        // checkAuth passed: GPS and the clock are running
    elapsedSeconds: nat,
    lat: Option<string>,                  // currentCoordinates: null, or a number's String() text
    lon: Option<string>,
    attendanceLogged: bool,
    attendanceRecordId: Option<string>,
    networkDownTime: Option<int>,         // start of the open outage window, in seconds
    isManualLogout: bool,
    attempt: Attempt,
    monitoring: bool,                     // startNetworkMonitoring has run
    countdowns: nat,                      // startOfflineCountdown intervals still running
    sent: seq<Request>,
    navigation: Navigation)

  /** JavaScript truthiness of a coordinate: `null`, `0` and `NaN` are false. */
  predicate Truthy(c: Option<string>) {
    c.Some? && c.value != "0" && c.value != "NaN"
  }

  /** `${c || "N/A"}` */
  function CoordText(c: Option<string>): string {
    if Truthy(c) then c.value else "N/A"
  }

  /** The stored marketer record. `JSON.parse` of a missing or empty entry makes the handler
      throw before it builds a request. */
  function MarketerData(s: Session): Option<string> {
    Get(s.items, "marketerData")
  }

  predicate Refreshing(s: Session) {
    Get(s.items, "isRefreshing") == Some("true")
  }

  // ---------------------------------------------------------------------------
  // Page load
  // ---------------------------------------------------------------------------

  /** checkAuth: the dashboard runs only for a stored marketer session with its record. */
  function CheckAuth(items: map<string, string>): (ok: bool)
    ensures ok <==> Get(items, "userType") == Some("marketer") && Present(Get(items, "marketerData"))
  {
    var userType := Get(items, "userType");
    var marketerData := Get(items, "marketerData");
    !(!Present(userType) || userType.value != "marketer" || !Present(marketerData))
  }

  /** The page's top-level code: without a session it sends the browser to the login page at
      once and starts nothing; otherwise it starts GPS tracking and the clock (whose first,
      immediate tick makes the count 1) and, on a reload, takes the refresh marker out of the
      store and treats attendance as already logged. */
  function Load(items: map<string, string>): (s: Session)
    ensures s.started <==> CheckAuth(items)
    ensures s.attendanceLogged <==> CheckAuth(items) && Get(items, "isRefreshing") == Some("true")
    ensures !Refreshing(s) || !CheckAuth(items)
    ensures s.items == if CheckAuth(items) && Get(items, "isRefreshing") == Some("true") then items - {"isRefreshing"} else items
    ensures s.sent == [] && s.networkDownTime == None && !s.monitoring && s.countdowns == 0 && !s.isManualLogout
    ensures s.navigation == (if CheckAuth(items) then Stay else ToLogin(0))
  {
    if !CheckAuth(items) then
      Session(items, false, 0, None, None, false, None, None, false, Finished, false, 0, [], ToLogin(0))
    else
      var refresh := Get(items, "isRefreshing") == Some("true");
      Session(if refresh then items - {"isRefreshing"} else items, true, 1, None, None, refresh, None,
              None, false, AwaitingFix, false, 0, [], Stay)
  }

  // ---------------------------------------------------------------------------
  // Attendance recorder (logAttendanceToDatabase)
  // ---------------------------------------------------------------------------

  /** One call of logAttendanceToDatabase. */
  function LogAttendanceCall(s: Session): (t: Session)
    ensures Refreshing(s) ==> t == s.(attendanceLogged := true, monitoring := true, attempt := Finished)
    ensures !Refreshing(s) && s.attendanceLogged ==> t == s.(attempt := Finished)
    ensures !Refreshing(s) && !s.attendanceLogged && (!Truthy(s.lat) || !Truthy(s.lon)) ==>
              t == s.(attempt := Scheduled(WaitForFixMs))
    ensures !Refreshing(s) && !s.attendanceLogged && Truthy(s.lat) && Truthy(s.lon) && !Present(MarketerData(s)) ==>
              t == s.(attempt := Scheduled(ErrorRetryMs))
    ensures t.sent != s.sent <==>
              !Refreshing(s) && !s.attendanceLogged && Truthy(s.lat) && Truthy(s.lon) && Present(MarketerData(s))
    ensures t.sent != s.sent ==>
              t == s.(sent := s.sent + [LogAttendance(MarketerData(s).value, s.lat.value + "," + s.lon.value)],
                      attempt := InFlight)
  {
    if Refreshing(s) then s.(attendanceLogged := true, monitoring := true, attempt := Finished)
    else if s.attendanceLogged then s.(attempt := Finished)
    else if !Truthy(s.lat) || !Truthy(s.lon) then s.(attempt := Scheduled(WaitForFixMs))
    else if !Present(MarketerData(s)) then s.(attempt := Scheduled(ErrorRetryMs))
    else s.(sent := s.sent + [LogAttendance(MarketerData(s).value, s.lat.value + "," + s.lon.value)],
            attempt := InFlight)
  }

  /** The awaited reply to the attendance request: success records the login and starts the
      network monitor; a `success: false` reply retries after 5 s and an exception after 10 s,
      with the flag still false. A reply with no request waiting changes nothing. */
  function AttendanceReply(s: Session, reply: Reply<Option<string>>): (t: Session)
    ensures s.attempt != InFlight ==> t == s
    ensures s.attempt == InFlight && reply.Succeeded? ==>
              t == s.(attendanceLogged := true, attendanceRecordId := reply.payload, monitoring := true, attempt := Finished)
    ensures s.attempt == InFlight && reply.Declined? ==> t == s.(attempt := Scheduled(DeclinedRetryMs))
    ensures s.attempt == InFlight && reply.Threw? ==> t == s.(attempt := Scheduled(ErrorRetryMs))
  {
    if s.attempt != InFlight then s
    else
      match reply
      case Succeeded(recordId) =>
        s.(attendanceLogged := true, attendanceRecordId := recordId, monitoring := true, attempt := Finished)
      case Declined(_) => s.(attempt := Scheduled(DeclinedRetryMs))
      case Threw => s.(attempt := Scheduled(ErrorRetryMs))
  }

  // ---------------------------------------------------------------------------
  // Network monitor
  // ---------------------------------------------------------------------------

  /** autoDisconnectMarketer, with the outcome of its `fetch`: it reports the logout with
      coordinates "N/A", clears the store and goes to the login page after 3 s, or at once when
      the request fails. Without a stored record it only clears and leaves. */
  function AutoDisconnect(s: Session, reason: string, fetchFails: bool): (t: Session)
    ensures t.items == map[] && !Present(MarketerData(t))
    ensures Present(MarketerData(s)) ==>
              t.sent == s.sent + [LogoutMarketer(MarketerData(s).value, "N/A", reason)]
              && t.navigation == ToLogin(if fetchFails then 0 else AutoDisconnectRedirectMs)
    ensures !Present(MarketerData(s)) ==> t.sent == s.sent && t.navigation == ToLogin(0)
    ensures t == s.(items := t.items, sent := t.sent, navigation := t.navigation)
  {
    if !Present(MarketerData(s)) then s.(items := map[], navigation := ToLogin(0))
    else
      var reported := s.(sent := s.sent + [LogoutMarketer(MarketerData(s).value, "N/A", reason)]);
      reported.(items := map[], navigation := ToLogin(if fetchFails then 0 else AutoDisconnectRedirectMs))
  }

  /** handleOffline: opens an outage window and its countdown only when none is open. */
  function HandleOffline(s: Session, now: int): (t: Session)
    ensures s.networkDownTime.Some? ==> t == s
    ensures s.networkDownTime.None? ==> t == s.(networkDownTime := Some(now), countdowns := s.countdowns + 1)
  {
    if s.networkDownTime.None? then s.(networkDownTime := Some(now), countdowns := s.countdowns + 1) else s
  }

  /** handleOnline: with no window it does nothing; within the grace period it closes the window
      with no request; after it the session is auto-disconnected and the window stays set. */
  function HandleOnline(s: Session, now: int, fetchFails: bool): (t: Session)
    ensures s.networkDownTime.None? ==> t == s
    ensures s.networkDownTime.Some? && now - s.networkDownTime.value <= GracePeriod ==>
              t == s.(networkDownTime := None)
    ensures s.networkDownTime.Some? && now - s.networkDownTime.value > GracePeriod ==>
              t == AutoDisconnect(s, "Auto_Disconnect_Network", fetchFails) && t.networkDownTime == s.networkDownTime
  {
    match s.networkDownTime
    case None => s
    case Some(downTime) =>
      if now - downTime > GracePeriod then AutoDisconnect(s, "Auto_Disconnect_Network", fetchFails)
      else s.(networkDownTime := None)
  }

  /** checkNetworkStatus: acts only when `navigator.onLine` disagrees with the window. */
  function CheckNetworkStatus(s: Session, online: bool, now: int, fetchFails: bool): (t: Session)
    ensures (online <==> s.networkDownTime.None?) ==> t == s
    ensures !online && s.networkDownTime.None? ==> t == HandleOffline(s, now)
    ensures online && s.networkDownTime.Some? ==> t == HandleOnline(s, now, fetchFails)
  {
    if !online && s.networkDownTime.None? then HandleOffline(s, now)
    else if online && s.networkDownTime.Some? then HandleOnline(s, now, fetchFails)
    else s
  }

  /** One tick of a running startOfflineCountdown interval: it stops once the window is closed;
      when `120 - elapsed` reaches 0 it stops, and disconnects only if the browser is still
      offline; before that it only updates the status text. */
  function CountdownStep(s: Session, now: int, online: bool, fetchFails: bool): (t: Session)
    ensures s.countdowns == 0 ==> t == s
    ensures s.countdowns > 0 && s.networkDownTime.None? ==> t == s.(countdowns := s.countdowns - 1)
    ensures s.countdowns > 0 && s.networkDownTime.Some? && GracePeriod - (now - s.networkDownTime.value) > 0 ==> t == s
    ensures s.countdowns > 0 && s.networkDownTime.Some? && GracePeriod - (now - s.networkDownTime.value) <= 0 ==>
              t == (var stopped := s.(countdowns := s.countdowns - 1);
                    if online then stopped else AutoDisconnect(stopped, "Auto_Disconnect_Network", fetchFails))
  {
    if s.countdowns == 0 then s
    else
      match s.networkDownTime
      case None => s.(countdowns := s.countdowns - 1)
      case Some(downTime) =>
        var remaining := GracePeriod - (now - downTime);
        if remaining <= 0 then
          var stopped := s.(countdowns := s.countdowns - 1);
          if online then stopped else AutoDisconnect(stopped, "Auto_Disconnect_Network", fetchFails)
        else s
  }

  // ---------------------------------------------------------------------------
  // Session terminator
  // ---------------------------------------------------------------------------

  /** handleLogout. A cancelled prompt changes nothing. Otherwise the guard flag is set and the
      logout is reported: success clears the store and leaves after 1 s; a `success: false`
      reply keeps the session; an exception (including a missing record) clears the store and
      leaves after 2 s. */
  function ManualLogout(s: Session, confirmed: bool, reply: Reply<()>): (t: Session)
    ensures !confirmed ==> t == s
    ensures confirmed ==> t.isManualLogout
    ensures confirmed && Present(MarketerData(s)) ==>
              t.sent == s.sent + [LogoutMarketer(MarketerData(s).value, CoordText(s.lat) + "," + CoordText(s.lon), "Manual")]
    ensures confirmed && !Present(MarketerData(s)) ==> t.sent == s.sent
    ensures confirmed && reply.Declined? && Present(MarketerData(s)) ==> t.items == s.items && t.navigation == s.navigation
    ensures confirmed && (reply.Succeeded? || reply.Threw? || !Present(MarketerData(s))) ==>
              t.items == map[] && t.navigation.ToLogin?
    ensures confirmed && !Present(MarketerData(s)) ==>
              t == s.(isManualLogout := true, items := map[], navigation := ToLogin(FailedLogoutRedirectMs))
    ensures confirmed && Present(MarketerData(s)) && reply.Succeeded? ==>
              t == s.(isManualLogout := true, sent := t.sent, items := map[], navigation := ToLogin(ManualLogoutRedirectMs))
    ensures confirmed && Present(MarketerData(s)) && reply.Declined? ==>
              t == s.(isManualLogout := true, sent := t.sent)
    ensures confirmed && Present(MarketerData(s)) && reply.Threw? ==>
              t == s.(isManualLogout := true, sent := t.sent, items := map[], navigation := ToLogin(FailedLogoutRedirectMs))
  {
    if !confirmed then s
    else
      var guarded := s.(isManualLogout := true);
      if !Present(MarketerData(s)) then guarded.(items := map[], navigation := ToLogin(FailedLogoutRedirectMs))
      else
        var reported := guarded.(sent := s.sent + [LogoutMarketer(MarketerData(s).value,
                                                                  CoordText(s.lat) + "," + CoordText(s.lon), "Manual")]);
        match reply
        case Succeeded(_) => reported.(items := map[], navigation := ToLogin(ManualLogoutRedirectMs))
        case Declined(_) => reported
        case Threw => reported.(items := map[], navigation := ToLogin(FailedLogoutRedirectMs))
  }

  /** The `beforeunload` listener: a reload only leaves the refresh marker; a close sends the
      `Browser_Close` beacon only when no manual logout ran, attendance is logged and no marker
      is stored. */
  function Unload(s: Session, reload: bool): (t: Session)
    ensures reload ==> t == s.(items := s.items["isRefreshing" := "true"])
    ensures !reload ==> t.items == s.items
    ensures !reload && t.sent != s.sent <==>
              !reload && !s.isManualLogout && s.attendanceLogged && !Present(Get(s.items, "isRefreshing"))
              && Present(MarketerData(s))
    ensures t.sent != s.sent ==>
              t == s.(sent := s.sent + [LogoutMarketer(MarketerData(s).value,
                                                      CoordText(s.lat) + "," + CoordText(s.lon), "Browser_Close")])
  {
    if reload then s.(items := s.items["isRefreshing" := "true"])
    else if !s.isManualLogout && s.attendanceLogged && !Present(Get(s.items, "isRefreshing")) && Present(MarketerData(s)) then
      s.(sent := s.sent + [LogoutMarketer(MarketerData(s).value, CoordText(s.lat) + "," + CoordText(s.lon), "Browser_Close")])
    else s
  }

  // ---------------------------------------------------------------------------
  // Events
  // ---------------------------------------------------------------------------

  datatype Event =
    | InitialFix(lat: string, lon: string)        // getCurrentPosition success
    | InitialFixError                             // getCurrentPosition error
    | WatchFix(lat: string, lon: string)          // watchPosition success
    | AttendanceTimer                             // the retry setTimeout fires
    | AttendanceResponse(reply: Reply<Option<string>>)
    | OfflineEvent(now: int)
    | OnlineEvent(now: int, fetchFails: bool)
    | PollTick(now: int, online: bool, fetchFails: bool)
    | CountdownTick(now: int, online: bool, fetchFails: bool)
    | ClockTick                                   // updateElapsedTime's interval
    | LogoutClick(confirmed: bool, logoutReply: Reply<()>)
    | BeforeUnload(reload: bool)

  /** `b` is `a` with zero or more requests sent after it. */
  predicate Extends(a: seq<Request>, b: seq<Request>) {
    |a| <= |b| && b[..|a|] == a
  }

  /** What the page does with one event. Listeners that were never registered ignore it. */
  function Step(s: Session, e: Event): Session {
    match e
    case InitialFix(lat, lon) =>
      if s.started && s.attempt == AwaitingFix then LogAttendanceCall(s.(lat := Some(lat), lon := Some(lon))) else s
    case InitialFixError =>
      if s.started && s.attempt == AwaitingFix then s.(attempt := Finished) else s
    case WatchFix(lat, lon) =>
      if s.started then s.(lat := Some(lat), lon := Some(lon)) else s
    case AttendanceTimer =>
      if s.attempt.Scheduled? then LogAttendanceCall(s) else s
    case AttendanceResponse(reply) => AttendanceReply(s, reply)
    case OfflineEvent(now) => if s.monitoring then HandleOffline(s, now) else s
    case OnlineEvent(now, fetchFails) => if s.monitoring then HandleOnline(s, now, fetchFails) else s
    case PollTick(now, online, fetchFails) =>
      if s.monitoring then CheckNetworkStatus(s, online, now, fetchFails) else s
    case CountdownTick(now, online, fetchFails) => CountdownStep(s, now, online, fetchFails)
    case ClockTick => if s.started then s.(elapsedSeconds := s.elapsedSeconds + 1) else s
    case LogoutClick(confirmed, reply) => ManualLogout(s, confirmed, reply)
    case BeforeUnload(reload) => Unload(s, reload)
  }

  function Run(s: Session, events: seq<Event>): Session
    decreases |events|
  {
    if events == [] then s else Run(Step(s, events[0]), events[1..])
  }

  // ---------------------------------------------------------------------------
  // Properties of single steps
  // ---------------------------------------------------------------------------

  /** What every handler but the clock's keeps: requests are only added, the manual-logout
      guard stays set, and the start flag and the clock do not move. */
  predicate Keeps(s: Session, t: Session) {
    Extends(s.sent, t.sent) && t.started == s.started && t.elapsedSeconds == s.elapsedSeconds
    && (s.isManualLogout ==> t.isManualLogout)
  }

  lemma LogAttendanceKeeps(s: Session)
    ensures Keeps(s, LogAttendanceCall(s)) && LogAttendanceCall(s).items == s.items
  {
    var t := LogAttendanceCall(s);
    if t.sent != s.sent {
      assert t.sent[..|s.sent|] == s.sent;
    }
  }

  lemma ManualLogoutKeeps(s: Session, confirmed: bool, reply: Reply<()>)
    ensures Keeps(s, ManualLogout(s, confirmed, reply))
  {
    var t := ManualLogout(s, confirmed, reply);
    if confirmed && Present(MarketerData(s)) {
      assert t.sent[..|s.sent|] == s.sent;
    }
  }

  lemma UnloadKeeps(s: Session, reload: bool)
    ensures Keeps(s, Unload(s, reload))
  {
    var t := Unload(s, reload);
    if t.sent != s.sent {
      assert t.sent[..|s.sent|] == s.sent;
    }
  }

  lemma NetworkKeeps(s: Session, e: Event)
    requires e.OfflineEvent? || e.OnlineEvent? || e.PollTick? || e.CountdownTick?
    ensures Keeps(s, Step(s, e))
  {
    NetworkStepAdds(s, e);
  }

  /** Every handler only adds requests to those already sent, keeps the manual-logout guard once
      set and never changes whether the page started; only the clock's own tick moves the clock,
      and the GPS, attendance-timer and attendance-reply callbacks leave the store alone. */
  lemma StepFrame(s: Session, e: Event)
    ensures Extends(s.sent, Step(s, e).sent)
    ensures Step(s, e).elapsedSeconds == s.elapsedSeconds + (if e.ClockTick? && s.started then 1 else 0)
    ensures Step(s, e).started == s.started
    ensures s.isManualLogout ==> Step(s, e).isManualLogout
    ensures (e.InitialFix? || e.InitialFixError? || e.WatchFix? || e.AttendanceTimer? || e.AttendanceResponse?)
              ==> Step(s, e).items == s.items
  {
    match e
    case InitialFix(lat, lon) =>
      LogAttendanceKeeps(s.(lat := Some(lat), lon := Some(lon)));
    case AttendanceTimer =>
      LogAttendanceKeeps(s);
    case OfflineEvent(now) =>
      NetworkKeeps(s, e);
    case OnlineEvent(now, fetchFails) =>
      NetworkKeeps(s, e);
    case PollTick(now, online, fetchFails) =>
      NetworkKeeps(s, e);
    case CountdownTick(now, online, fetchFails) =>
      NetworkKeeps(s, e);
    case LogoutClick(confirmed, reply) =>
      ManualLogoutKeeps(s, confirmed, reply);
    case BeforeUnload(reload) =>
      UnloadKeeps(s, reload);
    case InitialFixError =>
    case WatchFix(lat, lon) =>
    case AttendanceResponse(reply) =>
    case ClockTick =>
  }

  /** Along a run of events the sent requests only grow, the clock advances by at most one
      second per event and whether the page started never changes. */
  lemma {:induction false} RunFrame(s: Session, events: seq<Event>)
    ensures Extends(s.sent, Run(s, events).sent)
    ensures s.elapsedSeconds <= Run(s, events).elapsedSeconds <= s.elapsedSeconds + |events|
    ensures Run(s, events).started == s.started
    decreases |events|
  {
    if events != [] {
      var t := Step(s, events[0]);
      StepFrame(s, events[0]);
      RunFrame(t, events[1..]);
      var u := Run(t, events[1..]);
      assert u.sent[..|s.sent|] == u.sent[..|t.sent|][..|s.sent|];
    }
  }

  predicate IsLogin(r: Request) { r.LogAttendance? }
  predicate IsBrowserClose(r: Request) { r.LogoutMarketer? && r.logoutType == "Browser_Close" }

  function CountLogins(sent: seq<Request>): nat {
    if sent == [] then 0 else CountLogins(sent[..|sent| - 1]) + (if IsLogin(sent[|sent| - 1]) then 1 else 0)
  }

  function CountCloses(sent: seq<Request>): nat {
    if sent == [] then 0 else CountCloses(sent[..|sent| - 1]) + (if IsBrowserClose(sent[|sent| - 1]) then 1 else 0)
  }

  /** `b` is `a`, or `a` followed by one request that is not a login report. */
  predicate AddsNoLogin(a: seq<Request>, b: seq<Request>) {
    b == a || (|b| == |a| + 1 && b[..|a|] == a && !IsLogin(b[|a|]))
  }

  /** `b` is `a`, or `a` followed by one request that is not a `Browser_Close` beacon. */
  predicate AddsNoClose(a: seq<Request>, b: seq<Request>) {
    b == a || (|b| == |a| + 1 && b[..|a|] == a && !IsBrowserClose(b[|a|]))
  }

  lemma AddsNoLoginCount(a: seq<Request>, b: seq<Request>)
    requires AddsNoLogin(a, b)
    ensures CountLogins(b) == CountLogins(a)
  {
  }

  lemma AddsNoCloseCount(a: seq<Request>, b: seq<Request>)
    requires AddsNoClose(a, b)
    ensures CountCloses(b) == CountCloses(a)
  {
  }

  /** The network handlers only ever add an auto-disconnect report. */
  lemma AutoDisconnectAdds(s: Session, reason: string, fetchFails: bool)
    requires reason == "Auto_Disconnect_Network"
    ensures AddsNoLogin(s.sent, AutoDisconnect(s, reason, fetchFails).sent)
    ensures AddsNoClose(s.sent, AutoDisconnect(s, reason, fetchFails).sent)
  {
    var t := AutoDisconnect(s, reason, fetchFails);
    if Present(MarketerData(s)) {
      assert t.sent[..|s.sent|] == s.sent;
    }
  }

  /** The facts about one step that the run lemmas below carry along. */
  predicate NetworkStepFacts(s: Session, t: Session) {
    AddsNoLogin(s.sent, t.sent) && AddsNoClose(s.sent, t.sent)
    && t.attendanceLogged == s.attendanceLogged && t.attempt == s.attempt && t.isManualLogout == s.isManualLogout
    && t.started == s.started && t.elapsedSeconds == s.elapsedSeconds
  }

  lemma HandleOnlineFacts(s: Session, now: int, fetchFails: bool)
    ensures NetworkStepFacts(s, HandleOnline(s, now, fetchFails))
  {
    if s.networkDownTime.Some? && now - s.networkDownTime.value > GracePeriod {
      AutoDisconnectAdds(s, "Auto_Disconnect_Network", fetchFails);
    }
  }

  lemma CountdownFacts(s: Session, now: int, online: bool, fetchFails: bool)
    ensures NetworkStepFacts(s, CountdownStep(s, now, online, fetchFails))
  {
    if s.countdowns > 0 {
      var stopped := s.(countdowns := s.countdowns - 1);
      AutoDisconnectAdds(stopped, "Auto_Disconnect_Network", fetchFails);
    }
  }

  lemma NetworkStepAdds(s: Session, e: Event)
    requires e.OfflineEvent? || e.OnlineEvent? || e.PollTick? || e.CountdownTick?
    ensures NetworkStepFacts(s, Step(s, e))
  {
    match e
    case OfflineEvent(now) =>
    case OnlineEvent(now, fetchFails) =>
      HandleOnlineFacts(s, now, fetchFails);
    case PollTick(now, online, fetchFails) =>
      HandleOnlineFacts(s, now, fetchFails);
    case CountdownTick(now, online, fetchFails) =>
      CountdownFacts(s, now, online, fetchFails);
  }

  lemma LogoutStepAdds(s: Session, e: Event)
    requires e.LogoutClick? || e.BeforeUnload?
    ensures AddsNoLogin(s.sent, Step(s, e).sent)
    ensures e.LogoutClick? ==> AddsNoClose(s.sent, Step(s, e).sent)
    ensures e.BeforeUnload? && s.isManualLogout ==> Step(s, e).sent == s.sent
    ensures Step(s, e).attendanceLogged == s.attendanceLogged && Step(s, e).attempt == s.attempt
    ensures s.isManualLogout ==> Step(s, e).isManualLogout
  {
    var t := Step(s, e);
    if t.sent != s.sent {
      assert t.sent[..|s.sent|] == s.sent;
    }
  }

  lemma AttendanceStepAdds(s: Session, e: Event)
    requires !(e.OfflineEvent? || e.OnlineEvent? || e.PollTick? || e.CountdownTick? || e.LogoutClick? || e.BeforeUnload?)
    ensures AddsNoClose(s.sent, Step(s, e).sent)
    ensures s.attendanceLogged || s.attempt == Finished ==> Step(s, e).sent == s.sent
    ensures s.attendanceLogged ==> Step(s, e).attendanceLogged
    ensures s.attempt == Finished ==> Step(s, e).attempt == Finished
    ensures Step(s, e).isManualLogout == s.isManualLogout
  {
    match e
    case InitialFix(lat, lon) =>
      if s.started && s.attempt == AwaitingFix {
        LogAttendanceAdds(s.(lat := Some(lat), lon := Some(lon)));
      }
    case AttendanceTimer =>
      if s.attempt.Scheduled? {
        LogAttendanceAdds(s);
      }
    case InitialFixError =>
    case WatchFix(lat, lon) =>
    case AttendanceResponse(reply) =>
    case ClockTick =>
  }

  lemma LogAttendanceAdds(s: Session)
    ensures AddsNoClose(s.sent, LogAttendanceCall(s).sent)
    ensures s.attendanceLogged ==> LogAttendanceCall(s).sent == s.sent
    ensures s.attendanceLogged ==> LogAttendanceCall(s).attendanceLogged
    ensures LogAttendanceCall(s).isManualLogout == s.isManualLogout
  {
    var t := LogAttendanceCall(s);
    if t.sent != s.sent {
      assert t.sent[..|s.sent|] == s.sent;
    }
  }

  /** Once attendance is logged, or the chain is over, no step sends another login report. */
  lemma NoLoginStep(s: Session, e: Event)
    requires s.attendanceLogged || s.attempt == Finished
    ensures CountLogins(Step(s, e).sent) == CountLogins(s.sent)
    ensures Step(s, e).attendanceLogged || Step(s, e).attempt == Finished
  {
    if e.OfflineEvent? || e.OnlineEvent? || e.PollTick? || e.CountdownTick? {
      NetworkStepAdds(s, e);
      AddsNoLoginCount(s.sent, Step(s, e).sent);
    } else if e.LogoutClick? || e.BeforeUnload? {
      LogoutStepAdds(s, e);
      AddsNoLoginCount(s.sent, Step(s, e).sent);
    } else {
      AttendanceStepAdds(s, e);
    }
  }

  /** After a confirmed manual logout no step sends the `Browser_Close` beacon. */
  lemma NoCloseStep(s: Session, e: Event)
    requires s.isManualLogout
    ensures CountCloses(Step(s, e).sent) == CountCloses(s.sent) && Step(s, e).isManualLogout
  {
    if e.OfflineEvent? || e.OnlineEvent? || e.PollTick? || e.CountdownTick? {
      NetworkStepAdds(s, e);
      AddsNoCloseCount(s.sent, Step(s, e).sent);
    } else if e.LogoutClick? || e.BeforeUnload? {
      LogoutStepAdds(s, e);
      if e.LogoutClick? {
        AddsNoCloseCount(s.sent, Step(s, e).sent);
      }
    } else {
      AttendanceStepAdds(s, e);
      AddsNoCloseCount(s.sent, Step(s, e).sent);
    }
  }

  /** Without a stored marketer record no step sends anything, and the record never comes back. */
  lemma QuietStep(s: Session, e: Event)
    requires !Present(MarketerData(s))
    ensures Step(s, e).sent == s.sent && !Present(MarketerData(Step(s, e)))
  {
    match e
    case InitialFix(lat, lon) =>
      if s.started && s.attempt == AwaitingFix {
        QuietCall(s.(lat := Some(lat), lon := Some(lon)));
      }
    case AttendanceTimer =>
      if s.attempt.Scheduled? {
        QuietCall(s);
      }
    case OnlineEvent(now, fetchFails) =>
      QuietOnline(s, now, fetchFails);
    case PollTick(now, online, fetchFails) =>
      QuietOnline(s, now, fetchFails);
    case CountdownTick(now, online, fetchFails) =>
      QuietCountdown(s, now, online, fetchFails);
    case LogoutClick(confirmed, reply) =>
      QuietLogout(s, confirmed, reply);
    case BeforeUnload(reload) =>
      assert Get(s.items["isRefreshing" := "true"], "marketerData") == Get(s.items, "marketerData");
    case InitialFixError =>
    case WatchFix(lat, lon) =>
    case AttendanceResponse(reply) =>
    case OfflineEvent(now) =>
    case ClockTick =>
  }

  lemma QuietCountdown(s: Session, now: int, online: bool, fetchFails: bool)
    requires !Present(MarketerData(s))
    ensures CountdownStep(s, now, online, fetchFails).sent == s.sent
    ensures !Present(MarketerData(CountdownStep(s, now, online, fetchFails)))
  {
  }

  lemma QuietLogout(s: Session, confirmed: bool, reply: Reply<()>)
    requires !Present(MarketerData(s))
    ensures ManualLogout(s, confirmed, reply).sent == s.sent && !Present(MarketerData(ManualLogout(s, confirmed, reply)))
  {
  }

  lemma QuietCall(s: Session)
    requires !Present(MarketerData(s))
    ensures LogAttendanceCall(s).sent == s.sent && !Present(MarketerData(LogAttendanceCall(s)))
  {
  }

  lemma QuietOnline(s: Session, now: int, fetchFails: bool)
    requires !Present(MarketerData(s))
    ensures HandleOnline(s, now, fetchFails).sent == s.sent && !Present(MarketerData(HandleOnline(s, now, fetchFails)))
  {
  }

  /** Repeated offline signals, from the event and from the poll, open one window. */
  lemma OfflineIdempotent(s: Session, now1: int, now2: int)
    ensures HandleOffline(HandleOffline(s, now1), now2) == HandleOffline(s, now1)
    ensures HandleOffline(s, now1).networkDownTime.Some?
  {
  }

  // ---------------------------------------------------------------------------
  // Properties of whole runs
  // ---------------------------------------------------------------------------

  /** No successful-report step can happen in a state where attendance is already logged. */
  ghost predicate Inv(s: Session) {
    s.attempt == InFlight ==> !s.attendanceLogged
  }

  lemma MonotoneLogged(s: Session, e: Event)
    ensures s.attendanceLogged ==> Step(s, e).attendanceLogged
    ensures s.attempt == Finished ==> Step(s, e).attempt == Finished
  {
    if e.OfflineEvent? || e.OnlineEvent? || e.PollTick? || e.CountdownTick? {
      NetworkStepAdds(s, e);
    } else if e.LogoutClick? || e.BeforeUnload? {
      LogoutStepAdds(s, e);
    } else {
      AttendanceStepAdds(s, e);
    }
  }

  lemma InvStep(s: Session, e: Event)
    requires Inv(s)
    ensures Inv(Step(s, e))
  {
    if e.OfflineEvent? || e.OnlineEvent? || e.PollTick? || e.CountdownTick? {
      NetworkStepAdds(s, e);
    } else if e.LogoutClick? || e.BeforeUnload? {
      LogoutStepAdds(s, e);
    }
  }

  /** The number of successful replies to a login report along a run. */
  function Reports(s: Session, events: seq<Event>): nat
    decreases |events|
  {
    if events == [] then 0
    else
      (if s.attempt == InFlight && events[0].AttendanceResponse? && events[0].reply.Succeeded? then 1 else 0)
      + Reports(Step(s, events[0]), events[1..])
  }

  lemma {:induction false} ReportsBound(s: Session, events: seq<Event>)
    requires Inv(s)
    ensures Reports(s, events) <= if s.attendanceLogged || s.attempt == Finished then 0 else 1
    decreases |events|
  {
    if events != [] {
      InvStep(s, events[0]);
      MonotoneLogged(s, events[0]);
      ReportsBound(Step(s, events[0]), events[1..]);
    }
  }

  /** The login is reported successfully at most once per page load, and not at all after a
      reload, whatever the events. */
  lemma LoginReportedAtMostOnce(items: map<string, string>, events: seq<Event>)
    ensures Reports(Load(items), events) <= 1
    ensures Get(items, "isRefreshing") == Some("true") ==> Reports(Load(items), events) == 0
  {
    ReportsBound(Load(items), events);
  }

  lemma {:induction false} NoLoginRun(s: Session, events: seq<Event>)
    requires s.attendanceLogged || s.attempt == Finished
    ensures CountLogins(Run(s, events).sent) == CountLogins(s.sent)
    decreases |events|
  {
    if events != [] {
      NoLoginStep(s, events[0]);
      NoLoginRun(Step(s, events[0]), events[1..]);
    }
  }

  /** A reloaded page never sends a login report, whatever GPS does. */
  lemma ReloadNeverReports(items: map<string, string>, events: seq<Event>)
    requires Get(items, "isRefreshing") == Some("true")
    ensures CountLogins(Run(Load(items), events).sent) == 0
  {
    NoLoginRun(Load(items), events);
  }

  /** If the first position request fails, the attendance is never reported: later fixes from
      the watch only update the coordinates. */
  lemma FailedFirstFixNeverReports(s: Session, events: seq<Event>)
    requires s.started && s.attempt == AwaitingFix
    ensures CountLogins(Run(Step(s, InitialFixError), events).sent) == CountLogins(s.sent)
  {
    NoLoginRun(Step(s, InitialFixError), events);
  }

  lemma {:induction false} NoCloseRun(s: Session, events: seq<Event>)
    requires s.isManualLogout
    ensures CountCloses(Run(s, events).sent) == CountCloses(s.sent)
    decreases |events|
  {
    if events != [] {
      NoCloseStep(s, events[0]);
      NoCloseRun(Step(s, events[0]), events[1..]);
    }
  }

  /** A confirmed manual logout suppresses every later `Browser_Close` beacon. */
  lemma ManualLogoutSuppressesClose(s: Session, reply: Reply<()>, events: seq<Event>)
    ensures CountCloses(Run(ManualLogout(s, true, reply), events).sent) == CountCloses(ManualLogout(s, true, reply).sent)
  {
    NoCloseRun(ManualLogout(s, true, reply), events);
  }

  lemma {:induction false} QuietRun(s: Session, events: seq<Event>)
    requires !Present(MarketerData(s))
    ensures Run(s, events).sent == s.sent
    decreases |events|
  {
    if events != [] {
      QuietStep(s, events[0]);
      QuietRun(Step(s, events[0]), events[1..]);
    }
  }

  /** In the model, where a disconnect is one step (its report, the cleared store and the
      redirect together), an auto-disconnect ends all reporting: nothing at all is sent after
      it, even when a second countdown or a late reconnect triggers the disconnect again. The
      page itself clears the store only once its `fetch` settles, so events arriving in between
      are not covered by this. */
  lemma NothingAfterAutoDisconnect(s: Session, reason: string, fetchFails: bool, events: seq<Event>)
    ensures Run(AutoDisconnect(s, reason, fetchFails), events).sent == AutoDisconnect(s, reason, fetchFails).sent
  {
    QuietRun(AutoDisconnect(s, reason, fetchFails), events);
  }

  // ---------------------------------------------------------------------------
  // Outage windows and the first minutes of a session
  // ---------------------------------------------------------------------------

  lemma RunTwo(s: Session, a: Event, b: Event)
    ensures Run(s, [a, b]) == Step(Step(s, a), b)
  {
    var t := Step(s, a);
    assert [a, b][1..] == [b];
    assert Run(s, [a, b]) == Run(t, [b]);
    assert [b][1..] == [];
    assert Run(t, [b]) == Run(Step(t, b), []);
  }

  /** A connection lost at `t0` and back at `t1` within the grace period: the window closes and
      nothing is reported. */
  lemma ReconnectWithinGrace(s: Session, t0: int, t1: int, fetchFails: bool)
    requires s.monitoring && s.networkDownTime.None?
    requires t1 - t0 <= GracePeriod
    ensures var t := Run(s, [OfflineEvent(t0), OnlineEvent(t1, fetchFails)]);
      t.sent == s.sent && t.networkDownTime.None? && t.items == s.items && t.countdowns == s.countdowns + 1
  {
    var u := Step(s, OfflineEvent(t0));
    RunTwo(s, OfflineEvent(t0), OnlineEvent(t1, fetchFails));
  }

  /** A connection back only after the grace period: exactly one `Auto_Disconnect_Network`
      report, the store cleared and the login page next; and nothing is sent afterwards. */
  lemma ReconnectAfterGrace(s: Session, t0: int, t1: int, fetchFails: bool, later: seq<Event>)
    requires s.monitoring && s.networkDownTime.None? && Present(MarketerData(s))
    requires t1 - t0 > GracePeriod
    ensures var t := Run(s, [OfflineEvent(t0), OnlineEvent(t1, fetchFails)]);
      t.sent == s.sent + [LogoutMarketer(MarketerData(s).value, "N/A", "Auto_Disconnect_Network")]
      && t.items == map[] && t.navigation.ToLogin?
      && Run(t, later).sent == t.sent
  {
    var u := Step(s, OfflineEvent(t0));
    assert MarketerData(u) == MarketerData(s);
    RunTwo(s, OfflineEvent(t0), OnlineEvent(t1, fetchFails));
    NothingAfterAutoDisconnect(u, "Auto_Disconnect_Network", fetchFails, later);
  }

  /** A countdown tick at or after the end of the grace period while still offline ends the
      session without waiting for the connection to come back. */
  lemma CountdownExpiresOffline(s: Session, now: int, fetchFails: bool)
    requires s.countdowns > 0 && s.networkDownTime.Some? && Present(MarketerData(s))
    requires now - s.networkDownTime.value >= GracePeriod
    ensures var t := Step(s, CountdownTick(now, false, fetchFails));
      t.sent == s.sent + [LogoutMarketer(MarketerData(s).value, "N/A", "Auto_Disconnect_Network")]
      && t.items == map[] && t.countdowns == s.countdowns - 1
  {
  }

  /** A fresh login whose first fix is (-17.8, 31.0) reports the login once, with those
      coordinates; a `success: false` reply leads, when the retry timer fires, to the identical
      request again. */
  lemma FirstFixReportsLogin(items: map<string, string>)
    requires CheckAuth(items) && Get(items, "isRefreshing") != Some("true")
    ensures var s1 := Step(Load(items), InitialFix("-17.8", "31.0"));
      s1.sent == [LogAttendance(items["marketerData"], "-17.8,31.0")] && s1.attempt == InFlight
    ensures var s2 := Step(Step(Load(items), InitialFix("-17.8", "31.0")), AttendanceResponse(Declined(Some("db error"))));
      s2.attempt == Scheduled(DeclinedRetryMs) && !s2.attendanceLogged
      && Step(s2, AttendanceTimer).sent
         == [LogAttendance(items["marketerData"], "-17.8,31.0"), LogAttendance(items["marketerData"], "-17.8,31.0")]
  {
    var s0 := Load(items);
    assert !Refreshing(s0) && MarketerData(s0) == Some(items["marketerData"]);
    var u := s0.(lat := Some("-17.8"), lon := Some("31.0"));
    assert Truthy(u.lat) && Truthy(u.lon);
    assert ("-17.8" + "," + "31.0") == "-17.8,31.0";
  }

  /** A fix at latitude 0 counts as no fix: nothing is sent and the call waits 2 s. */
  lemma ZeroLatitudeWaits(items: map<string, string>, lon: string)
    requires CheckAuth(items) && Get(items, "isRefreshing") != Some("true")
    ensures var s1 := Step(Load(items), InitialFix("0", lon));
      s1.sent == [] && s1.attempt == Scheduled(WaitForFixMs)
  {
    assert !Refreshing(Load(items));
  }

  /** On a reload the marker is gone before the first fix, the fix sends nothing, and since
      the network monitor is started only by a logged call, it is not running. */
  lemma ReloadFirstFix(items: map<string, string>, lat: string, lon: string)
    requires CheckAuth(items) && Get(items, "isRefreshing") == Some("true")
    ensures "isRefreshing" !in Load(items).items
    ensures var s1 := Step(Load(items), InitialFix(lat, lon));
      s1.sent == [] && s1.attendanceLogged && s1.attempt == Finished && !s1.monitoring
  {
  }
}
