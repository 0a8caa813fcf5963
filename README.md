# Field-marketer attendance tracker: a verified model of its browser logic

The tracker is a set of browser scripts in front of an HTTP backend. Three pages are modelled:

- **Login/signup page** (`js/auth.js`): the password-strength indicator, the signup and
  login checks, the session-store writes of a successful login, and the shop select it fills.
- **Marketer dashboard** (`js/m_dash_js.js`): a small controller built from module-level
  flags. It reports the login (attendance) at most once and waits for a GPS fix. It retries
  when the backend declines or the call throws. Its network monitor gives a 120-second grace
  period before an automatic logout. A browser close and a manual logout each send a logout
  report.
- **HR dashboard** (`js/hr_dash_js.js`): the HR session check, the shop and marketer
  registration checks, and the shop select. It also covers the grouping of active marketers
  into one map marker per coordinate string, the per-second time-at-location tick, and the
  weekly-hours totals' date and `"Xh Ym"` parsing.

## Modules

- `JsText`: the JavaScript string behaviour the scripts rely on:
  - `trim` with ECMAScript's whitespace set;
  - `length` in UTF-16 code units;
  - `split`/`join` on one character;
  - decimal digits, and `String(n)`.
- `Browser`:
  - `sessionStorage` as a class over a `map`;
  - a `<select>` element as a class over a `seq` of options.
- `Backend`:
  - an awaited request's outcome `Reply<T>`: `success: true` with its payload, `success: false`
    with an optional message, or an exception;
  - the records the backend returns.
- `ClockFormat`: elapsed seconds split into hours, minutes and seconds, `HH:MM:SS` and
  `Hh Mm Ss`.
- `Auth`: the login/signup page.
- `HrForms`, `HrTracking`, `HrReports`: the HR dashboard.
- `MarketerSession`: the marketer dashboard's controller as a state machine over values.
  - `Session` holds the page's flags, its session store, where the retry chain of the
    attendance request stands, the open outage countdowns, the requests sent so far, and the
    pending navigation.
  - Every browser callback or timer firing is an `Event`, and `Step` is what the page does
    with it.
  - The wall clock is an integer number of seconds carried by the events that read it.
  - Each backend call is reduced to its outcome.
- `MarketerDashboard`: the same controller as the page has it. A `Dashboard` object holds the
  module-level variables as fields and the tab's store as a `SessionStorage`. It has one method
  per handler, each proved to move the object's state exactly as `MarketerSession.Step` does.
  Every run lemma about `Step` therefore holds of the page.
- `LoginHandoff`: the keys a login writes, matched against what each dashboard's check reads.

## Behaviour as written

The model follows the code as written, including these behaviours:

- **A declined manual logout keeps the session.** When the backend answers a manual logout
  with `success: false`, the store is not cleared and the page stays
  (`js/m_dash_js.js:189-192`).
- **A failed first fix means attendance is never reported.** If the first
  `getCurrentPosition` fails, nothing ever calls the attendance request again: the fixes from
  `watchPosition` only update the coordinates (`js/m_dash_js.js:332-364`). See
  `MarketerSession.FailedFirstFixNeverReports`.
- **After a reload the network monitor never starts.** The monitor is started only from the
  attendance call (`js/m_dash_js.js:80`, `:127`). After a reload, the load code removes the
  refresh marker before the first fix arrives (`js/m_dash_js.js:504-510`). The call then takes
  the "already logged" branch, which does not start the monitor. See
  `MarketerSession.ReloadFirstFix`.
- **Coordinates of 0 count as missing** (`js/m_dash_js.js:91`): see
  `MarketerSession.ZeroLatitudeWaits`.
- **The logout button works without a session.** Its listener is attached whether or not the
  session check passed (`js/m_dash_js.js:560-567`).
- **The marketer form's "select a shop" warning is unreachable**
  (`js/hr_dash_js.js:490-495`): the first check already rejects an empty shop id.
- **An outage can be reported twice.** `autoDisconnectMarketer` clears the store only after
  its awaited `fetch` settles (`js/m_dash_js.js:303-310`), and `handleOnline` leaves the outage
  window set when it disconnects (`js/m_dash_js.js:247-250`). A 5-second poll or an `online`
  event that arrives while that `fetch` is pending therefore starts a second disconnect with
  the record still stored (`js/m_dash_js.js:211`, `:221-222`). Going offline at `t0`, back
  online at `t0 + 150` and a poll at `t0 + 152` send two `Auto_Disconnect_Network` reports. The
  model runs a disconnect as one step, so it does not show this.
- **The HR tracking table's per-second timer never runs.** `startClientSideTimeUpdates`
  (`js/hr_dash_js.js:834`) is never called. `updateActiveMarketersTable` builds rows without a
  `.time-at-location` cell and stops any running interval (`js/hr_dash_js.js:817-828`).
  `HrTracking.ClientTimeTick` models what one tick would compute if the timer ran.
- **`parseDate` is defined twice, identically** (`js/hr_dash_js.js:1164-1185`). One model
  serves both.

## Model

| member | source | states |
|---|---|---|
| JsText.Trim | js/hr_dash_js.js:410-411 | `trim` gives a piece of the input with no whitespace at either end; it is empty exactly when the input is all whitespace |
| JsText.TrimInfix | js/auth.js:240-241 | the trimmed text sits inside the input with only whitespace before and after it |
| JsText.TrimIdempotent | js/hr_dash_js.js:472-474 | trimming a trimmed value changes nothing |
| JsText.Utf16Length | js/auth.js:133-144 | `length` counts UTF-16 code units: between one and two per character, and 0 only for the empty string |
| JsText.Utf16LengthOfBmp | js/auth.js:262 | for text inside the Basic Multilingual Plane, `length` is the character count |
| JsText.Split | js/hr_dash_js.js:1167 | `split("/")` gives one more piece than there are separators, none of which contains the separator |
| JsText.JoinSplit | js/hr_dash_js.js:1167 | joining the pieces of a split with the separator rebuilds the input |
| JsText.SplitPrefix | js/hr_dash_js.js:1167 | a separator-free piece followed by the separator is split off as the first piece |
| JsText.SplitNoSeparator | js/hr_dash_js.js:1168 | a text without the separator splits into itself alone |
| JsText.NatToDecimal | js/hr_dash_js.js:859 | `String(n)` of a non-negative integer is a digit string without leading zeros |
| JsText.DecimalRoundTrip | js/hr_dash_js.js:1026 | `parseInt(String(n))` is `n` |
| Browser.Get | js/m_dash_js.js:25-26 | `getItem` returns the stored text exactly when the key is present, and `null` otherwise |
| Browser.SessionStorage.GetItem | js/m_dash_js.js:77 | reading the store is `Get` on its contents |
| Browser.SessionStorage.SetItem | js/auth.js:405-417 | `setItem` overwrites one key and keeps every other |
| Browser.SessionStorage.RemoveItem | js/m_dash_js.js:506 | `removeItem` drops one key and keeps every other |
| Browser.SessionStorage.Clear | js/m_dash_js.js:183 | `clear` empties the store |
| Browser.Select.ReplaceOptions | js/hr_dash_js.js:380-381 | assigning one option's markup leaves exactly that option |
| Browser.Select.ClearOptions | js/hr_dash_js.js:377 | assigning empty markup leaves no options |
| Browser.Select.Append | js/hr_dash_js.js:400 | `appendChild` adds the option at the end |
| Browser.Select.SetDisabled | js/hr_dash_js.js:382 | setting `disabled` changes nothing else |
| ClockFormat.Decompose | js/m_dash_js.js:444-446 | the hours, minutes and seconds recombine to the elapsed count, with minutes and seconds below 60 |
| ClockFormat.DecomposeTotal | js/hr_dash_js.js:855-857 | decomposing a total whose minutes and seconds are below 60 gives back those parts: the split is unique |
| ClockFormat.Pad2 | js/m_dash_js.js:449-453 | `String(n).padStart(2, "0")` is at least two digits and reads back as `n` |
| ClockFormat.PadBelowHundred | js/m_dash_js.js:449-453 | values below 100 pad to exactly two characters |
| ClockFormat.ClockText | js/m_dash_js.js:441-453 | the clock text is at least eight characters with a `:` three and six characters from its end, and exactly eight (`HH:MM:SS`) below 100 hours |
| ClockFormat.DurationTextParts | js/hr_dash_js.js:854-859 | the `<h>h <m>m <s>s` text splits at its spaces into the count's hours, minutes and seconds, each followed by its unit letter, and the three numbers read back as the count |
| ClockFormat.ClockTextRoundTrip | js/m_dash_js.js:441-453 | the `HH:MM:SS` text splits at `:` into three digit groups, the last two of width 2, that read back as the elapsed count |
| Auth.PasswordStrength | js/auth.js:129-162 | no indicator iff the password is empty; Weak iff its length is 1 to 5; Strong iff its length is 8 or more with an upper-case letter, a lower-case letter and a digit; Medium otherwise |
| Auth.StrengthNeverDropsWhenTyping | js/auth.js:129-162 | typing more characters never lowers the indicator |
| Auth.StrengthAgreesWithSignupLength | js/auth.js:262-265 | with the other fields filled, the indicator shows Medium or Strong exactly when signup's length rule passes |
| Auth.ValidateSignup | js/auth.js:240-296 | the reported error is a failing rule with no earlier rule failing, in the order empty field, mismatch, password length, username length, username characters; the request goes out iff every rule passes, with the name and username trimmed and the password as typed |
| Auth.HandleSignup | js/auth.js:233-337 | a request goes out iff validation passes, carrying the untrimmed password and the trimmed username; success is reported iff a request went out and the reply succeeded |
| Auth.ValidateLogin | js/auth.js:350-393 | the reported error is a failing rule with no earlier rule failing, in the order no user type, missing credentials, then for marketers a disabled shop select and an empty shop id; otherwise the request carries the trimmed username and the other fields as read |
| Auth.ToggleShopField | js/auth.js:78-89 | the shop field is required iff the user type is `marketer`, and hidden iff it is not required |
| Auth.ShopFieldMatchesLoginRule | js/auth.js:367-382 | when the shop field is hidden, the shop select's state and value have no effect on whether login proceeds |
| Auth.StoredAfterLogin | js/auth.js:405-418 | the stored keys are the old ones plus the four identity keys, plus the three shop keys for a marketer; every other key keeps its value |
| Auth.StoredAfterLoginKeys | js/auth.js:405-418 | a login writes its four identity keys, writes the three shop keys only for a marketer, and leaves every other key as it was |
| Auth.LoginRedirect | js/auth.js:422-428 | the HR dashboard iff the user type is `hr`, the marketer dashboard otherwise |
| Auth.HandleLogin | js/auth.js:346-443 | a request goes out iff validation passes; the store changes and a redirect is chosen iff the reply succeeded, and then the store is exactly the login's writes over the old store |
| Auth.LoginShopOptions | js/auth.js:184-189 | one option per shop, in order, valued by its id and labelled by its name |
| Auth.LoadShops | js/auth.js:171-224 | a non-empty list gives the placeholder followed by every shop; an empty list, a declined reply and an exception each leave one explanatory option and disable the select |
| HrForms.CheckAuthentication | js/hr_dash_js.js:52-64 | the HR dashboard stays open iff the stored user type is `hr` and a username is stored |
| HrForms.ValidateShop | js/hr_dash_js.js:410-432 | the shop is registered iff both fields hold more than whitespace, with both trimmed and the HR user's stored id and name attached |
| HrForms.ValidateMarketer | js/hr_dash_js.js:472-513 | "all fields required" iff a field is all whitespace or no shop is chosen; "password too short" iff the trimmed password is 1 to 5 long with the other fields filled; the shop warning never happens; a sent request carries the trimmed fields and a password of at least 6 |
| HrForms.HrShopOptions | js/hr_dash_js.js:396-401 | one option per shop, in order, valued by its id and labelled with the name followed by the id in parentheses |
| HrForms.UpdateShopDropdowns | js/hr_dash_js.js:371-402 | no shops leaves one explanatory option and a disabled select; otherwise the select is enabled with the default option followed by every shop |
| HrTracking.GroupKeys | js/hr_dash_js.js:727-737 | there are no more group keys than active marketers |
| HrTracking.GroupOf | js/hr_dash_js.js:729-737 | a group has no more marketers than the input |
| HrTracking.GroupKeysSpec | js/hr_dash_js.js:727-740 | the group keys are distinct, and a string is a key iff some active marketer has those coordinates |
| HrTracking.GroupOfSpec | js/hr_dash_js.js:729-737 | a group holds only marketers of the input with its key, and is non-empty iff its key is a group key |
| HrTracking.GroupOfAppend | js/hr_dash_js.js:736 | grouping keeps input order: the group of a concatenation is the groups of the parts, in order |
| HrTracking.EveryMarketerInExactlyOneGroup | js/hr_dash_js.js:729-737 | every marketer is in the group of its own coordinates and in no other group |
| HrTracking.InOwnGroup | js/hr_dash_js.js:736 | each marketer is pushed onto the group of its coordinates |
| HrTracking.GroupSizesSumToTotal | js/hr_dash_js.js:727-737 | the sizes of the groups add up to the number of active marketers |
| HrTracking.SizeSumStep | js/hr_dash_js.js:736 | one more marketer grows the total over distinct keys by one iff its key is among them |
| HrTracking.SizeSumAppendKey | js/hr_dash_js.js:733 | opening a new key adds that group's size to the total |
| HrTracking.GroupByCoordinates | js/hr_dash_js.js:727-737 | the dictionary filled in place has exactly the group keys, in first-seen order, each holding its group |
| HrTracking.PopupFor | js/hr_dash_js.js:754-778 | the popup is the list form iff the group has more than one marketer; the list form shows the count and every marketer's name and shop, in order; the single form shows that marketer |
| HrTracking.PopupForEntries | js/hr_dash_js.js:764-775 | the list form names every marketer of the group with its shop, in group order |
| HrTracking.PlaceMarkers | js/hr_dash_js.js:740-781 | one marker per dictionary key, in key order, each showing exactly that key's non-empty group |
| HrTracking.UpdateMapMarkers | js/hr_dash_js.js:717-782 | without a map nothing happens; otherwise there is one marker per distinct coordinate string, in first-seen order, whose popup lists exactly that string's non-empty group |
| HrTracking.ClientTimeTick | js/hr_dash_js.js:841-870 | with no table or no marketers the timer stops and nothing changes; otherwise every count grows by exactly one and the tick computes each new count's `<h>h <m>m <s>s` text |
| HrReports.ToNumber | js/hr_dash_js.js:1171 | a digit string converts to its decimal value and a blank string to 0 |
| HrReports.TrimOfDigits | js/hr_dash_js.js:1171 | a digit string has nothing to trim |
| HrReports.ParseDate | js/hr_dash_js.js:1164-1172 | there is a date iff the text is non-empty and contains exactly two slashes |
| HrReports.ParseDateOfPieces | js/hr_dash_js.js:1164-1172 | `d/m/y` with slash-free pieces gives year `y`, month `m - 1` and day `d` |
| HrReports.ParseDateOfSplit | js/hr_dash_js.js:1167-1171 | a text that splits into three pieces is read as day, month and year |
| HrReports.SplitThree | js/hr_dash_js.js:1167 | three slash-free pieces joined by slashes split back into those pieces |
| HrReports.RunEnd | js/hr_dash_js.js:1023 | the greedy `\d+` run starting at a position ends at the first non-digit |
| HrReports.RunEndInside | js/hr_dash_js.js:1023 | every position inside a digit run ends at the same place |
| HrReports.FirstMatch | js/hr_dash_js.js:1023-1024 | `match` finds the leftmost position where a digit run is followed by the unit letter, or reports that there is none |
| HrReports.Captured | js/hr_dash_js.js:1023-1027 | the captured number can be positive only when the unit letter occurs in the text; without it the log contributes 0 for that unit |
| HrReports.WorkedMinutes | js/hr_dash_js.js:1010-1029 | there are no worked minutes exactly for a log `In progress`; a finished log without `h` or `m` counts 0 |
| HrReports.ReadHoursAndMinutes | js/hr_dash_js.js:1022-1029 | `"<x>h <y>m"` is read as x hours and y minutes |
| HrReports.MatchesOfHoursAndMinutes | js/hr_dash_js.js:1023-1024 | in `"<x>h <y>m"` the hours pattern matches at the start and the minutes pattern just after `h ` |
| HrReports.NoMatchBefore | js/hr_dash_js.js:1024 | the minutes pattern cannot match inside the hours part |
| HrReports.WorkedMinutesAt | js/hr_dash_js.js:1026-1029 | the worked minutes are the captured hours times 60 plus the captured minutes |
| HrReports.FirstMatchIs | js/hr_dash_js.js:1023 | a match with none before it is the one the pattern finds |
| HrReports.RunOf | js/hr_dash_js.js:1023 | a digit stretch followed by a non-digit is one whole run |
| HrReports.NoUnitsMeansZero | js/hr_dash_js.js:1026-1027 | a text with neither `h` nor `m` counts as 0 minutes |
| HrReports.NoMatchWithoutUnit | js/hr_dash_js.js:1026 | without the unit letter there is no match |
| HrReports.ChartEntry | js/hr_dash_js.js:1010-1013 | a log counts iff it is not in progress and its date parses, and then it carries that date and its worked minutes |
| HrReports.AllDays | js/hr_dash_js.js:1005 | seven bars, one per weekday |
| HrReports.BarsAddUpToWeek | js/hr_dash_js.js:1008-1036 | the seven bars together hold every counted minute of the week exactly once |
| HrReports.OneLogOneDay | js/hr_dash_js.js:1017-1034 | a log adds its minutes to at most one day, and to one exactly when it falls in the week |
| HrReports.SumDaysPointwise | js/hr_dash_js.js:1034 | adding the bars element by element adds their totals |
| HrReports.SumDaysSingle | js/hr_dash_js.js:1034 | bars that are zero except at one day total that day's bar |
| HrReports.SumDaysZero | js/hr_dash_js.js:1005 | seven zero bars total zero |
| HrReports.WeeklyMinutes | js/hr_dash_js.js:1005-1036 | the loop's seven counters end as the per-day totals of the finished, dated logs in the week |
| HrReports.DayMinutesSnoc | js/hr_dash_js.js:1034 | one more log adds its contribution to each day's total |
| MarketerSession.CheckAuth | js/m_dash_js.js:24-34 | the marketer dashboard runs iff the stored user type is `marketer` and a marketer record is stored |
| MarketerSession.Load | js/m_dash_js.js:491-513 | a page without a session starts nothing, keeps the store as it is and goes to the login page at once; a session starts GPS and the clock, and a reload removes the refresh marker (the only change to the store) and counts attendance as logged |
| MarketerSession.LogAttendanceCall | js/m_dash_js.js:75-108 | nothing is sent under the refresh marker (which marks attendance logged and starts monitoring), nor once attendance is logged, nor while a coordinate is missing or 0 (retry in 2 s), nor without a stored record (retry in 10 s, nothing else changed); a request is sent iff none of these holds and a record is stored, carrying `"<lat>,<lon>"` |
| MarketerSession.AttendanceReply | js/m_dash_js.js:117-139 | success records the login and its record id and starts monitoring; `success: false` retries in 5 s and an exception in 10 s, the flag unchanged; a reply with no request waiting changes nothing |
| MarketerSession.AutoDisconnect | js/m_dash_js.js:290-320 | the store is cleared; with a stored record, one `"N/A"` logout report with the given reason goes out and the login page follows after 3 s (at once if the call fails); without one, nothing is sent |
| MarketerSession.HandleOffline | js/m_dash_js.js:226-240 | an outage window and its countdown open only when no window is open |
| MarketerSession.HandleOnline | js/m_dash_js.js:242-265 | no window: nothing; down for at most 120 s: the window closes silently; longer: auto-disconnect, the window left set |
| MarketerSession.CheckNetworkStatus | js/m_dash_js.js:218-224 | the poll acts only when the browser's online state disagrees with the window |
| MarketerSession.CountdownStep | js/m_dash_js.js:268-288 | a tick stops its countdown once the window is closed; when `120 - elapsed` reaches 0 it stops and disconnects only if still offline; before that it changes nothing |
| MarketerSession.ManualLogout | js/m_dash_js.js:146-203 | a cancelled prompt changes nothing; otherwise the guard flag is set and, with a stored record, the `Manual` logout is reported with the coordinates; success clears the store and leaves after 1 s; `success: false` changes nothing beyond the flag and the report; an exception clears and leaves after 2 s; a missing record sends nothing, clears and leaves after 2 s |
| MarketerSession.Unload | js/m_dash_js.js:519-554 | a reload only stores the refresh marker; a close sends the `Browser_Close` beacon iff no manual logout ran, attendance is logged, no marker is stored and a record is stored |
| MarketerSession.LogAttendanceKeeps | js/m_dash_js.js:75-108 | the attendance call only adds requests and leaves the store, the clock, the start flag and the logout guard alone |
| MarketerSession.ManualLogoutKeeps | js/m_dash_js.js:146-203 | the logout handler only adds requests and leaves the clock and the start flag alone |
| MarketerSession.UnloadKeeps | js/m_dash_js.js:519-554 | the `beforeunload` listener only adds requests and leaves the clock, the start flag and the logout guard alone |
| MarketerSession.NetworkKeeps | js/m_dash_js.js:209-288 | the network handlers only add requests and leave the clock, the start flag and the logout guard alone |
| MarketerSession.StepFrame | js/m_dash_js.js:75-567 | every handler the page registers only adds requests to those sent, keeps the manual-logout guard once set and never changes whether the page started; only the clock's tick moves the clock, by one second; the GPS, timer and attendance-reply callbacks leave the store alone |
| MarketerSession.RunFrame | js/m_dash_js.js:75-567 | along any sequence of events the sent requests only grow, the clock advances by at most one second per event, and whether the page started never changes |
| MarketerSession.AddsNoLoginCount | js/m_dash_js.js:101-108 | appending anything but a login report keeps the number of login reports |
| MarketerSession.AddsNoCloseCount | js/m_dash_js.js:540-552 | appending anything but a close beacon keeps the number of close beacons |
| MarketerSession.AutoDisconnectAdds | js/m_dash_js.js:294-301 | an auto-disconnect adds at most one request, and it is neither a login report nor a close beacon |
| MarketerSession.HandleOnlineFacts | js/m_dash_js.js:242-265 | a reconnect adds no login report or close beacon and leaves the attendance flags alone |
| MarketerSession.CountdownFacts | js/m_dash_js.js:268-288 | a countdown tick adds no login report or close beacon and leaves the attendance flags alone |
| MarketerSession.NetworkStepAdds | js/m_dash_js.js:209-288 | no network event adds a login report or close beacon or touches the attendance flags |
| MarketerSession.LogoutStepAdds | js/m_dash_js.js:146-203 | logout and unload add no login report and keep the attendance flags; after a manual logout an unload sends nothing |
| MarketerSession.AttendanceStepAdds | js/m_dash_js.js:75-140 | GPS, timer and reply events send no close beacon, and send nothing once attendance is logged or the retry chain is over |
| MarketerSession.NoLoginStep | js/m_dash_js.js:85-88 | once attendance is logged or the chain is over, no event sends a login report, and that stays so |
| MarketerSession.NoCloseStep | js/m_dash_js.js:532-536 | after a confirmed manual logout no event sends a close beacon |
| MarketerSession.QuietStep | js/m_dash_js.js:99 | without a stored record no event sends anything, and the record does not come back |
| MarketerSession.OfflineIdempotent | js/m_dash_js.js:226-240 | repeated offline signals open one window |
| MarketerSession.MonotoneLogged | js/m_dash_js.js:120 | once logged, attendance stays logged, and a finished chain stays finished |
| MarketerSession.InvStep | js/m_dash_js.js:119-127 | a request in flight implies attendance not yet logged, in every state reached |
| MarketerSession.ReportsBound | js/m_dash_js.js:77-88 | along any run there is at most one successful login report, and none once logged or finished |
| MarketerSession.LoginReportedAtMostOnce | js/m_dash_js.js:77-127 | per page load, whatever the events, the login is reported successfully at most once, and never after a reload |
| MarketerSession.NoLoginRun | js/m_dash_js.js:85-88 | once logged or finished, no run sends another login report |
| MarketerSession.ReloadNeverReports | js/m_dash_js.js:504-510 | a reloaded page never sends a login report |
| MarketerSession.FailedFirstFixNeverReports | js/m_dash_js.js:332-364 | after a failed first fix, no run sends a login report |
| MarketerSession.NoCloseRun | js/m_dash_js.js:532-536 | after a manual logout, no run sends a close beacon |
| MarketerSession.ManualLogoutSuppressesClose | js/m_dash_js.js:153 | a confirmed manual logout suppresses every later close beacon |
| MarketerSession.QuietRun | js/m_dash_js.js:292 | without a stored record, no run sends anything |
| MarketerSession.NothingAfterAutoDisconnect | js/m_dash_js.js:310-318 | in the model, where a disconnect is one step, nothing more is sent after an auto-disconnect |
| MarketerSession.ReconnectWithinGrace | js/m_dash_js.js:242-262 | lost and back within 120 s: the window closes, nothing is sent and the store is kept |
| MarketerSession.ReconnectAfterGrace | js/m_dash_js.js:247-250 | back after more than 120 s: exactly one `Auto_Disconnect_Network` report, the store cleared and the login page next; in the model, where a disconnect is one step, nothing is sent afterwards |
| MarketerSession.CountdownExpiresOffline | js/m_dash_js.js:277-281 | a countdown tick at the end of the grace period while offline ends the session without waiting for the connection |
| MarketerSession.FirstFixReportsLogin | js/m_dash_js.js:101-133 | a fresh login's first fix at (-17.8, 31.0) sends one report with `"-17.8,31.0"`; after `success: false` the retry timer sends it again unchanged |
| MarketerSession.ZeroLatitudeWaits | js/m_dash_js.js:91-96 | a fix at latitude 0 sends nothing and waits 2 s |
| MarketerSession.ReloadFirstFix | js/m_dash_js.js:504-510 | after a reload the marker is gone before the first fix; the fix sends nothing, and the network monitor is not running |
| MarketerDashboard.Dashboard.constructor | js/m_dash_js.js:491-513 | the page's load leaves object and store in the state `Load` gives |
| MarketerDashboard.Dashboard.LogAttendance | js/m_dash_js.js:75-108 | the call moves the page's state as `LogAttendanceCall` does |
| MarketerDashboard.Dashboard.GpsFix | js/m_dash_js.js:333-340 | the first fix's handler is `Step` on `InitialFix` |
| MarketerDashboard.Dashboard.GpsError | js/m_dash_js.js:341-343 | the first fix's error handler is `Step` on `InitialFixError` |
| MarketerDashboard.Dashboard.WatchFix | js/m_dash_js.js:352-355 | the watch's handler is `Step` on `WatchFix` |
| MarketerDashboard.Dashboard.AttendanceTimer | js/m_dash_js.js:94 | a retry timer firing is `Step` on `AttendanceTimer` |
| MarketerDashboard.Dashboard.AttendanceResponse | js/m_dash_js.js:117-139 | the reply handling is `Step` on `AttendanceResponse` |
| MarketerDashboard.Dashboard.Disconnect | js/m_dash_js.js:290-320 | the disconnect moves the page's state as `AutoDisconnect` does |
| MarketerDashboard.Dashboard.HandleOffline | js/m_dash_js.js:226-240 | the handler moves the page's state as `HandleOffline` does |
| MarketerDashboard.Dashboard.HandleOnline | js/m_dash_js.js:242-265 | the handler moves the page's state as `HandleOnline` does |
| MarketerDashboard.Dashboard.OfflineEvent | js/m_dash_js.js:215 | the `offline` listener is `Step` on `OfflineEvent` |
| MarketerDashboard.Dashboard.OnlineEvent | js/m_dash_js.js:214 | the `online` listener is `Step` on `OnlineEvent` |
| MarketerDashboard.Dashboard.PollTick | js/m_dash_js.js:211-224 | the 5-second poll is `Step` on `PollTick` |
| MarketerDashboard.Dashboard.CountdownTick | js/m_dash_js.js:268-288 | a countdown tick is `Step` on `CountdownTick` |
| MarketerDashboard.Dashboard.ClockTick | js/m_dash_js.js:441-453 | the clock's tick is `Step` on `ClockTick` and shows the new count as `HH:MM:SS` |
| MarketerDashboard.Dashboard.Logout | js/m_dash_js.js:146-203 | the logout handler is `Step` on `LogoutClick` |
| MarketerDashboard.Dashboard.BeforeUnload | js/m_dash_js.js:519-554 | the `beforeunload` listener is `Step` on `BeforeUnload` |
| LoginHandoff.HrDashboardAdmitsLogin | js/hr_dash_js.js:52-64 | after a login the HR dashboard admits the session iff the reply named an HR user with a non-empty username |
| LoginHandoff.MarketerDashboardAdmitsLogin | js/m_dash_js.js:24-34 | after a login the marketer dashboard admits the session iff the reply named a marketer with a non-empty record, and otherwise leaves for the login page at once |
| LoginHandoff.RedirectMatchesDashboard | js/auth.js:422-428 | an HR login is never admitted by the marketer dashboard, and a login sent to the marketer dashboard is never admitted by the HR one |
| LoginHandoff.ShopSelectsOfferSameIds | js/auth.js:184-189 | the login form and the HR form offer the same shop ids in the same order |

## Left out

- Network and backend:
  - `fetch` and `sendBeacon` are left out. Each backend call becomes a `Reply` outcome, or a
    `fetchFails` flag for the auto-disconnect, whose reply is never read.
  - JSON parsing is left out:
    - the stored `marketerData` is kept as its text;
    - a present, non-empty value counts as a parsed record;
    - an empty or missing one makes the handler throw.
  - The request fields taken from inside that record (`marketerId`, `fullName`, `shopId`) are
    not modelled. A request carries the record's text instead.
- The attendance call and its reply are two steps, a request (`InFlight`) and a later
  response event. An auto-disconnect and a manual logout are each one atomic step taking
  their call's outcome. So two disconnects whose requests overlap in time are not modelled:
  in the model, the second one finds the store already cleared.
- Listener registrations are not modelled one by one. `startNetworkMonitoring` is reached at
  most once per page load, from the single attendance chain (`js/m_dash_js.js:80`, `:127`),
  so the model's single `monitoring` flag stands for its listeners and its 5-second poll.
- Browser state:
  - the geolocation API becomes the fix and error events;
  - `navigator.onLine` is a parameter of the events that read it;
  - the deprecated `performance.navigation` reload test is the `reload` parameter of
    `BeforeUnload`;
  - the wall clock is an integer number of seconds, with `Math.floor` of the millisecond
    difference taken as given;
  - timer scheduling is reduced to the retry delay recorded in `Attempt`, the number of
    running countdowns, and the event that fires.
- DOM work is left out: status texts, alerts, CSS classes, `confirm` (its answer is a
  parameter), tab and sidebar handling, notifications, and the loading overlay.
- Coordinates are the text `String()` gives for the number. Truthiness is false for `"0"`
  and `"NaN"`. The floats themselves, `toFixed`, `parseFloat` of coordinates and marker
  placement are left out.
- Leaflet and Chart.js rendering are left out, as are the decimal-hours display, the
  hours-worked decimal formatting and the weekly chart's rounding.
  - `HrReports.WeeklyMinutes` adds integer minutes where the chart adds fractional hours.
    The sum is the same quantity before rounding.
- `Date` is left out: calendar arithmetic, week boundaries and the day of the week. The
  weekly chart takes `placeInWeek`, which gives the weekday of a parsed date inside the
  current week and nothing otherwise. `new Date` of an invalid date is an object and still
  passes the `!logDate` test. It is left to `placeInWeek` to place it nowhere, as the source's
  comparisons do.
- `HrReports.ToNumber`: evaluates only trimmed, optionally signed decimal-digit text. Every
  other form (fractions, exponents, hex, `Infinity`) is `Other`, as is text that is no number
  at all. JavaScript's `Date` truncates its arguments, so `"14.5/10/2026"`, `"0xE/10/2026"`
  and `"1.4e1/10/2026"` name the same day as `"14/10/2026"`. The model does not tell these
  texts apart from `"abc/10/2026"`: whether they fall in the week is left to `placeInWeek`.
- `HrTracking.GroupByCoordinates`, `HrTracking.UpdateMapMarkers`: the first-seen key order
  holds only for coordinate texts that are not array-index-like integers. `Object.keys` lists
  such keys first, in ascending numeric order. Coordinate texts naming a property every
  object inherits, such as `"toString"`, make the `push` throw (`js/hr_dash_js.js:729-737`).
  Neither case is modelled.
- The HR tracking table's `.time-at-location` cell and its display are not modelled:
  `HrTracking.ClientTimeTick` returns the texts a tick would write.
- The `typeof hoursWorked === "number"` branch of the weekly chart is left out: the backend
  sends text.
- `Auth.HandleSignup`: does not state the message texts shown for each outcome. They are in
  its body (`SignupErrorMessage`, the reply's `message` or the fixed fallback).
- `Auth.HandleLogin`: states the message only through its body. The 1-second redirect delay
  is not modelled.
- The HR dashboard's logout, lists, tables and auto-refresh are not part of this model. The
  same holds for the signup and login pages' tab switching and password-visibility toggle.
