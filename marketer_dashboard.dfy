/** The marketer dashboard page itself: the module-level variables of the script as the fields
    of one object, the tab's session store, and one method per handler or timer callback. Each
    method is proved to do exactly what the matching `MarketerSession` step does, so every
    property proved there holds of the page. */
module MarketerDashboard {
  import opened JsText
  import opened Browser
  import opened Backend
  import opened ClockFormat
  import opened MarketerSession

  class Dashboard {
    const store: SessionStorage
    var started: bool
    var elapsedSeconds: nat
    var lat: Option<string>
    var lon: Option<string>
    var attendanceLogged: bool
    var attendanceRecordId: Option<string>
    var networkDownTime: Option<int>
    var isManualLogout: bool
    var attempt: Attempt
    var monitoring: bool
    var countdowns: nat
    var sent: seq<Request>
    var navigation: Navigation

    /** The page's state as a `MarketerSession.Session` value. */
    ghost function Snapshot(): Session
      reads this, store
    {
      Session(store.items, started, elapsedSeconds, lat, lon, attendanceLogged, attendanceRecordId,
              networkDownTime, isManualLogout, attempt, monitoring, countdowns, sent, navigation)
    }

    /** The script's top level, run when the page loads over the tab's store. */
    constructor (store: SessionStorage)
      modifies store
      ensures this.store == store
      ensures Snapshot() == Load(old(store.items))
    {
      this.store := store;
      lat, lon := None, None;
      attendanceRecordId, networkDownTime := None, None;
      isManualLogout, monitoring, countdowns, sent := false, false, 0, [];
      var userType := store.GetItem("userType");
      var marketerData := store.GetItem("marketerData");
      if !Present(userType) || userType.value != "marketer" || !Present(marketerData) {
        navigation := ToLogin(0);
        started, elapsedSeconds, attendanceLogged, attempt := false, 0, false, Finished;
      } else {
        navigation := Stay;
        started, attempt := true, AwaitingFix;
        elapsedSeconds := 1;
        attendanceLogged := false;
        if store.GetItem("isRefreshing") == Some("true") {
          store.RemoveItem("isRefreshing");
          attendanceLogged := true;
        }
      }
    }

    /** logAttendanceToDatabase up to its `fetch`. */
    method LogAttendance()
      modifies this
      ensures Snapshot() == LogAttendanceCall(old(Snapshot()))
    {
      if store.GetItem("isRefreshing") == Some("true") {
        attendanceLogged := true;
        monitoring := true;
        attempt := Finished;
        return;
      }
      if attendanceLogged {
        attempt := Finished;
        return;
      }
      if !Truthy(lat) || !Truthy(lon) {
        attempt := Scheduled(WaitForFixMs);
        return;
      }
      var marketerData := store.GetItem("marketerData");
      if !Present(marketerData) {
        attempt := Scheduled(ErrorRetryMs);
        return;
      }
      sent := sent + [MarketerSession.LogAttendance(marketerData.value, lat.value + "," + lon.value)];
      attempt := InFlight;
    }

    /** The `getCurrentPosition` success callback. */
    method GpsFix(newLat: string, newLon: string)
      modifies this
      ensures Snapshot() == Step(old(Snapshot()), InitialFix(newLat, newLon))
    {
      if started && attempt == AwaitingFix {
        lat, lon := Some(newLat), Some(newLon);
        LogAttendance();
      }
    }

    /** The `getCurrentPosition` error callback. */
    method GpsError()
      modifies this
      ensures Snapshot() == Step(old(Snapshot()), InitialFixError)
    {
      if started && attempt == AwaitingFix {
        attempt := Finished;
      }
    }

    /** The `watchPosition` success callback. */
    method WatchFix(newLat: string, newLon: string)
      modifies this
      ensures Snapshot() == Step(old(Snapshot()), MarketerSession.WatchFix(newLat, newLon))
    {
      if started {
        lat, lon := Some(newLat), Some(newLon);
      }
    }

    /** The attendance retry timer fires. */
    method AttendanceTimer()
      modifies this
      ensures Snapshot() == Step(old(Snapshot()), MarketerSession.AttendanceTimer)
    {
      if attempt.Scheduled? {
        LogAttendance();
      }
    }

    /** The awaited reply to the attendance request. */
    method AttendanceResponse(reply: Reply<Option<string>>)
      modifies this
      ensures Snapshot() == Step(old(Snapshot()), MarketerSession.AttendanceResponse(reply))
    {
      if attempt != InFlight {
        return;
      }
      match reply
      case Succeeded(recordId) =>
        attendanceLogged := true;
        attendanceRecordId := recordId;
        monitoring := true;
        attempt := Finished;
      case Declined(_) =>
        attempt := Scheduled(DeclinedRetryMs);
      case Threw =>
        attempt := Scheduled(ErrorRetryMs);
    }

    /** autoDisconnectMarketer. */
    method Disconnect(reason: string, fetchFails: bool)
      modifies this, store
      ensures Snapshot() == AutoDisconnect(old(Snapshot()), reason, fetchFails)
    {
      var marketerData := store.GetItem("marketerData");
      if !Present(marketerData) {
        store.Clear();
        navigation := ToLogin(0);
        return;
      }
      sent := sent + [LogoutMarketer(marketerData.value, "N/A", reason)];
      store.Clear();
      navigation := ToLogin(if fetchFails then 0 else AutoDisconnectRedirectMs);
    }

    method HandleOffline(now: int)
      modifies this
      ensures Snapshot() == MarketerSession.HandleOffline(old(Snapshot()), now)
    {
      if networkDownTime.None? {
        networkDownTime := Some(now);
        countdowns := countdowns + 1;
      }
    }

    method HandleOnline(now: int, fetchFails: bool)
      modifies this, store
      ensures Snapshot() == MarketerSession.HandleOnline(old(Snapshot()), now, fetchFails)
    {
      if networkDownTime.Some? {
        var downDuration := now - networkDownTime.value;
        if downDuration > GracePeriod {
          Disconnect("Auto_Disconnect_Network", fetchFails);
        } else {
          networkDownTime := None;
        }
      }
    }

    /** The window's `offline` event. */
    method OfflineEvent(now: int)
      modifies this
      ensures Snapshot() == Step(old(Snapshot()), MarketerSession.OfflineEvent(now))
    {
      if monitoring {
        HandleOffline(now);
      }
    }

    /** The window's `online` event. */
    method OnlineEvent(now: int, fetchFails: bool)
      modifies this, store
      ensures Snapshot() == Step(old(Snapshot()), MarketerSession.OnlineEvent(now, fetchFails))
    {
      if monitoring {
        HandleOnline(now, fetchFails);
      }
    }

    /** The 5-second checkNetworkStatus interval. */
    method PollTick(now: int, online: bool, fetchFails: bool)
      modifies this, store
      ensures Snapshot() == Step(old(Snapshot()), MarketerSession.PollTick(now, online, fetchFails))
    {
      if !monitoring {
        return;
      }
      if !online && networkDownTime.None? {
        HandleOffline(now);
      } else if online && networkDownTime.Some? {
        HandleOnline(now, fetchFails);
      }
    }

    /** One tick of a running outage countdown. */
    method CountdownTick(now: int, online: bool, fetchFails: bool)
      modifies this, store
      ensures Snapshot() == Step(old(Snapshot()), MarketerSession.CountdownTick(now, online, fetchFails))
    {
      if countdowns == 0 {
        return;
      }
      if networkDownTime.None? {
        countdowns := countdowns - 1;
        return;
      }
      var elapsed := now - networkDownTime.value;
      var remaining := GracePeriod - elapsed;
      if remaining <= 0 {
        countdowns := countdowns - 1;
        if !online {
          Disconnect("Auto_Disconnect_Network", fetchFails);
        }
      }
    }

    /** updateElapsedTime: one more second, shown as `HH:MM:SS`. */
    method ClockTick() returns (text: string)
      modifies this
      ensures Snapshot() == Step(old(Snapshot()), MarketerSession.ClockTick)
      ensures text == ClockText(elapsedSeconds)
    {
      if started {
        elapsedSeconds := elapsedSeconds + 1;
      }
      text := ClockText(elapsedSeconds);
    }

    /** handleLogout, with the answer to the confirmation prompt and the reply. */
    method Logout(confirmed: bool, reply: Reply<()>)
      modifies this, store
      ensures Snapshot() == Step(old(Snapshot()), LogoutClick(confirmed, reply))
    {
      if !confirmed {
        return;
      }
      isManualLogout := true;
      var marketerData := store.GetItem("marketerData");
      if !Present(marketerData) {
        store.Clear();
        navigation := ToLogin(FailedLogoutRedirectMs);
        return;
      }
      sent := sent + [LogoutMarketer(marketerData.value, CoordText(lat) + "," + CoordText(lon), "Manual")];
      match reply
      case Succeeded(_) =>
        store.Clear();
        navigation := ToLogin(ManualLogoutRedirectMs);
      case Declined(_) =>
      case Threw =>
        store.Clear();
        navigation := ToLogin(FailedLogoutRedirectMs);
    }

    /** The `beforeunload` listener. */
    method BeforeUnload(reload: bool)
      modifies this, store
      ensures Snapshot() == Step(old(Snapshot()), MarketerSession.BeforeUnload(reload))
    {
      if reload {
        store.SetItem("isRefreshing", "true");
        return;
      }
      var refreshing := store.GetItem("isRefreshing");
      if !isManualLogout && attendanceLogged && !Present(refreshing) {
        var marketerData := store.GetItem("marketerData");
        if Present(marketerData) {
          sent := sent + [LogoutMarketer(marketerData.value, CoordText(lat) + "," + CoordText(lon), "Browser_Close")];
        }
      }
    }
  }
}
