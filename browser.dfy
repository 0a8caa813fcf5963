/** The browser objects the scripts read and write: the tab's `sessionStorage`, a `<select>`
    element's option list, and the outcome of an awaited `fetch` to the backend. */
module Browser {
  import opened JsText

  /** What `sessionStorage.getItem(key)` returns: the stored text, or `null`. */
  function Get(items: map<string, string>, key: string): (v: Option<string>)
    ensures v.Some? <==> key in items
    ensures v.Some? ==> v.value == items[key]
  {
    if key in items then Some(items[key]) else None
  }

  /** JavaScript truthiness of a stored value: `null` and `""` are false. */
  predicate Present(v: Option<string>) {
    v.Some? && v.value != ""
  }

  /** The tab's session-scoped key/value store. */
  class SessionStorage {
    var items: map<string, string>

    constructor (initial: map<string, string>)
      ensures items == initial
    {
      items := initial;
    }

    function GetItem(key: string): (v: Option<string>)
      reads this
      ensures v == Get(items, key)
    {
      if key in items then Some(items[key]) else None
    }

    method SetItem(key: string, value: string)
      modifies this
      ensures items == old(items)[key := value]
    {
      items := items[key := value];
    }

    method RemoveItem(key: string)
      modifies this
      ensures items == old(items) - {key}
    {
      items := items - {key};
    }

    method Clear()
      modifies this
      ensures items == map[]
    {
      items := map[];
    }
  }

  /** One `<option value=… >label</option>`. */
  datatype SelectOption = SelectOption(value: string, text: string)

  /** A `<select>` element: its options in document order and its `disabled` flag. */
  class Select {
    var options: seq<SelectOption>
    var disabled: bool

    constructor (options: seq<SelectOption>, disabled: bool)
      ensures this.options == options && this.disabled == disabled
    {
      this.options := options;
      this.disabled := disabled;
    }

    /** `select.innerHTML = '<option …>…</option>'` */
    method ReplaceOptions(o: SelectOption)
      modifies this
      ensures options == [o] && disabled == old(disabled)
    {
      options := [o];
    }

    /** `select.innerHTML = ""` */
    method ClearOptions()
      modifies this
      ensures options == [] && disabled == old(disabled)
    {
      options := [];
    }

    /** `select.appendChild(option)` */
    method Append(o: SelectOption)
      modifies this
      ensures options == old(options) + [o] && disabled == old(disabled)
    {
      options := options + [o];
    }

    method SetDisabled(d: bool)
      modifies this
      ensures disabled == d && options == old(options)
    {
      disabled := d;
    }
  }
}

/** The backend's replies, as the scripts see them once `response.json()` has been read. */
module Backend {
  import opened JsText

  /** How an awaited request ends: a reply with `success: true` and its payload, a reply with
      `success: false` and its optional `message`, or an exception (transport failure or a body
      that is not JSON). */
  datatype Reply<T> = Succeeded(payload: T) | Declined(message: Option<string>) | Threw

  /** What a form handler does once its client-side checks have run: send the request, or
      stop with the first failed check. */
  datatype Submission<R, E> = Send(request: R) | Reject(error: E)

  /** `value || fallback` for an optional text such as a reply's `message`. */
  function OrElse(v: Option<string>, fallback: string): string {
    if v.Some? && v.value != "" then v.value else fallback
  }

  /** A shop record from `getShops`. */
  datatype Shop = Shop(shopId: string, shopName: string, shopAddress: string)

  /** A record from `getActiveMarketers`. */
  datatype ActiveMarketer = ActiveMarketer(name: string, shopName: string, coordinates: string, elapsedSeconds: nat)

  /** A record from `getAttendanceLogs` (the fields the weekly chart reads). */
  datatype AttendanceLog = AttendanceLog(date: string, hoursWorked: string)
}
