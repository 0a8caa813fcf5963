/** The login and signup page: the password-strength indicator, the signup and login checks
    and what they send, the shop field rule, the shop list of the login form, and what a
    successful login leaves in the session store. */
module Auth {
  import opened JsText
  import opened Browser
  import opened Backend

  // ---------------------------------------------------------------------------
  // Password strength (checkPasswordStrength)
  // ---------------------------------------------------------------------------

  datatype Strength = NoIndicator | Weak | Medium | Strong

  /** The indicator shown under the signup password field. */
  function PasswordStrength(password: string): (r: Strength)
    ensures r == NoIndicator <==> password == ""
    ensures r == Weak <==> 0 < Utf16Length(password) < 6
    ensures r == Strong <==> Utf16Length(password) >= 8 && HasUpper(password) && HasLower(password) && HasDigit(password)
    ensures r == Medium <==> 6 <= Utf16Length(password) && !(Utf16Length(password) >= 8 && HasUpper(password) && HasLower(password) && HasDigit(password))
  {
    var n := Utf16Length(password);
    if n == 0 then NoIndicator
    else if n < 6 then Weak
    else if n < 8 then Medium
    else if HasUpper(password) && HasLower(password) && HasDigit(password) then Strong
    else Medium
  }

  function StrengthRank(s: Strength): nat {
    match s
    case NoIndicator => 0
    case Weak => 1
    case Medium => 2
    case Strong => 3
  }

  /** Typing more characters never lowers the indicator. */
  lemma StrengthNeverDropsWhenTyping(password: string, more: string)
    ensures StrengthRank(PasswordStrength(password)) <= StrengthRank(PasswordStrength(password + more))
  {
    var p := password + more;
    Utf16LengthAppend(password, more);
    if PasswordStrength(password) == Strong {
      var i :| 0 <= i < |password| && IsAsciiUpper(password[i]);
      var j :| 0 <= j < |password| && IsAsciiLower(password[j]);
      var k :| 0 <= k < |password| && IsAsciiDigit(password[k]);
      assert p[i] == password[i] && p[j] == password[j] && p[k] == password[k];
    }
  }

  lemma {:induction false} Utf16LengthAppend(a: string, b: string)
    ensures Utf16Length(a + b) == Utf16Length(a) + Utf16Length(b)
  {
    if a != [] {
      assert (a + b)[1..] == a[1..] + b && (a + b)[0] == a[0];
      Utf16LengthAppend(a[1..], b);
    } else {
      assert a + b == b;
    }
  }

  /** The indicator shows Medium or Strong exactly for passwords the signup length check accepts. */
  lemma StrengthAgreesWithSignupLength(fullName: string, username: string, password: string)
    requires Trim(fullName) != "" && Trim(username) != "" && password != ""
    ensures PasswordStrength(password) in {Medium, Strong}
            <==> ValidateSignup(fullName, username, password, password) != Reject(PasswordTooShort)
  {
  }

  // ---------------------------------------------------------------------------
  // Signup (handleSignup)
  // ---------------------------------------------------------------------------

  datatype SignupError = MissingField | PasswordMismatch | PasswordTooShort | UsernameTooShort | UsernameInvalid

  /** The order in which the signup checks run. */
  function SignupOrder(e: SignupError): nat {
    match e
    case MissingField => 0
    case PasswordMismatch => 1
    case PasswordTooShort => 2
    case UsernameTooShort => 3
    case UsernameInvalid => 4
  }

  /** `/^[a-zA-Z0-9_]+$/.test(username)` */
  predicate IsValidUsername(username: string) {
    |username| > 0 && forall i :: 0 <= i < |username| ==> IsWordChar(username[i])
  }

  /** Each signup rule on its own, over the trimmed name and username and the raw passwords. */
  predicate SignupRuleFails(e: SignupError, fullName: string, username: string, password: string, confirm: string) {
    match e
    case MissingField => fullName == "" || username == "" || password == "" || confirm == ""
    case PasswordMismatch => password != confirm
    case PasswordTooShort => Utf16Length(password) < 6
    case UsernameTooShort => Utf16Length(username) < 4
    case UsernameInvalid => !IsValidUsername(username)
  }

  datatype SignupRequest = SignupRequest(fullName: string, username: string, password: string)

  /** The signup form's client-side checks: the first failing rule, in `SignupOrder`, decides
      the outcome; a request is sent only when every rule passes, with the name and username
      trimmed and the password as typed. */
  function ValidateSignup(fullNameField: string, usernameField: string, password: string, confirm: string)
    : (r: Submission<SignupRequest, SignupError>)
    ensures var fullName, username := Trim(fullNameField), Trim(usernameField);
      (r.Reject? ==>
        SignupRuleFails(r.error, fullName, username, password, confirm)
        && forall e :: SignupOrder(e) < SignupOrder(r.error) ==> !SignupRuleFails(e, fullName, username, password, confirm))
      && (r.Send? <==> forall e :: !SignupRuleFails(e, fullName, username, password, confirm))
      && (r.Send? ==> r.request == SignupRequest(fullName, username, password))
  {
    var fullName := Trim(fullNameField);
    var username := Trim(usernameField);
    SignupRulesInOrder(fullName, username, password, confirm);
    if fullName == "" || username == "" || password == "" || confirm == "" then Reject(MissingField)
    else if password != confirm then Reject(PasswordMismatch)
    else if Utf16Length(password) < 6 then Reject(PasswordTooShort)
    else if Utf16Length(username) < 4 then Reject(UsernameTooShort)
    else if !IsValidUsername(username) then Reject(UsernameInvalid)
    else Send(SignupRequest(fullName, username, password))
  }

  /** The five signup rules, listed one by one in check order. */
  lemma SignupRulesInOrder(fullName: string, username: string, password: string, confirm: string)
    ensures forall e :: SignupRuleFails(e, fullName, username, password, confirm) <==>
      (e == MissingField && SignupRuleFails(MissingField, fullName, username, password, confirm))
      || (e == PasswordMismatch && password != confirm)
      || (e == PasswordTooShort && Utf16Length(password) < 6)
      || (e == UsernameTooShort && Utf16Length(username) < 4)
      || (e == UsernameInvalid && !IsValidUsername(username))
    ensures forall e :: SignupOrder(e) == 0 <==> e == MissingField
    ensures forall e :: SignupOrder(e) == 1 <==> e == PasswordMismatch
    ensures forall e :: SignupOrder(e) == 2 <==> e == PasswordTooShort
    ensures forall e :: SignupOrder(e) == 3 <==> e == UsernameTooShort
    ensures forall e :: SignupOrder(e) <= 4
  {
  }

  function SignupErrorMessage(e: SignupError): string {
    match e
    case MissingField => "All fields are required"
    case PasswordMismatch => "Passwords do not match"
    case PasswordTooShort => "Password must be at least 6 characters"
    case UsernameTooShort => "Username must be at least 4 characters"
    case UsernameInvalid => "Username can only contain letters, numbers, and underscore"
  }

  /** What the user sees after submitting the signup form. */
  datatype SignupResult = SignupResult(sent: Option<SignupRequest>, message: string, success: bool)

  /** handleSignup end to end: the checks, then, if a request went out, the reading of the
      backend's reply (`reply` is ignored when nothing is sent). */
  function HandleSignup(fullNameField: string, usernameField: string, password: string, confirm: string,
                        reply: Reply<Option<string>>): (r: SignupResult)
    ensures r.sent.Some? <==> ValidateSignup(fullNameField, usernameField, password, confirm).Send?
    ensures r.sent.Some? ==> r.sent.value.password == password && r.sent.value.username == Trim(usernameField)
    ensures r.success <==> r.sent.Some? && reply.Succeeded?
  {
    match ValidateSignup(fullNameField, usernameField, password, confirm)
    case Reject(e) => SignupResult(None, SignupErrorMessage(e), false)
    case Send(req) =>
      match reply
      case Succeeded(msg) => SignupResult(Some(req), OrElse(msg, "Account created successfully! Please login."), true)
      case Declined(msg) => SignupResult(Some(req), OrElse(msg, "Signup failed. Please try again."), false)
      case Threw => SignupResult(Some(req), "Error connecting to server. Please check your internet connection.", false)
  }

  // ---------------------------------------------------------------------------
  // Login (handleLogin, toggleShopField)
  // ---------------------------------------------------------------------------

  datatype LoginError = NoUserType | MissingCredentials | NoShopsAvailable | NoShopSelected

  function LoginOrder(e: LoginError): nat {
    match e
    case NoUserType => 0
    case MissingCredentials => 1
    case NoShopsAvailable => 2
    case NoShopSelected => 3
  }

  /** Each login rule on its own; the two shop rules apply to field marketers only. */
  predicate LoginRuleFails(e: LoginError, userType: string, username: string, password: string,
                           shopId: string, shopSelectDisabled: bool) {
    match e
    case NoUserType => userType == ""
    case MissingCredentials => username == "" || password == ""
    case NoShopsAvailable => userType == "marketer" && shopSelectDisabled
    case NoShopSelected => userType == "marketer" && shopId == ""
  }

  datatype LoginRequest = LoginRequest(userType: string, username: string, password: string, shopId: string)

  /** The login form's checks: the first failing rule, in `LoginOrder`, decides; otherwise the
      request carries the trimmed username and the other fields as read. */
  function ValidateLogin(userType: string, usernameField: string, password: string, shopId: string,
                         shopSelectDisabled: bool): (r: Submission<LoginRequest, LoginError>)
    ensures var username := Trim(usernameField);
      (r.Reject? ==>
        LoginRuleFails(r.error, userType, username, password, shopId, shopSelectDisabled)
        && forall e :: LoginOrder(e) < LoginOrder(r.error) ==> !LoginRuleFails(e, userType, username, password, shopId, shopSelectDisabled))
      && (r.Send? <==> forall e :: !LoginRuleFails(e, userType, username, password, shopId, shopSelectDisabled))
      && (r.Send? ==> r.request == LoginRequest(userType, username, password, shopId))
  {
    var username := Trim(usernameField);
    if userType == "" then
      assert LoginRuleFails(NoUserType, userType, username, password, shopId, shopSelectDisabled);
      Reject(NoUserType)
    else if username == "" || password == "" then
      assert LoginRuleFails(MissingCredentials, userType, username, password, shopId, shopSelectDisabled);
      Reject(MissingCredentials)
    else if userType == "marketer" && shopSelectDisabled then
      assert LoginRuleFails(NoShopsAvailable, userType, username, password, shopId, shopSelectDisabled);
      Reject(NoShopsAvailable)
    else if userType == "marketer" && shopId == "" then
      assert LoginRuleFails(NoShopSelected, userType, username, password, shopId, shopSelectDisabled);
      Reject(NoShopSelected)
    else Send(LoginRequest(userType, username, password, shopId))
  }

  /** The shop field's state after `toggleShopField`. */
  datatype ShopField = ShopField(hidden: bool, required: bool)

  function ToggleShopField(userType: string): (f: ShopField)
    ensures f.required <==> userType == "marketer"
    ensures f.hidden <==> !f.required
  {
    if userType == "marketer" then ShopField(false, true) else ShopField(true, false)
  }

  /** The field is marked required exactly when the login checks look at the shop: for a
      marketer an empty shop id stops the login, for anyone else the shop select is ignored. */
  lemma ShopFieldMatchesLoginRule(userType: string, usernameField: string, password: string,
                                  shopId: string, disabled: bool, otherShopId: string, otherDisabled: bool)
    requires Trim(usernameField) != "" && password != ""
    ensures ToggleShopField(userType).required ==>
              ValidateLogin(userType, usernameField, password, "", false) == Reject(NoShopSelected)
    ensures !ToggleShopField(userType).required ==>
              ValidateLogin(userType, usernameField, password, shopId, disabled).Send?
              == ValidateLogin(userType, usernameField, password, otherShopId, otherDisabled).Send?
  {
  }

  /** The fields of a successful login reply that the page stores. */
  datatype LoginReply = LoginReply(userType: string, username: string, fullName: string, userId: string,
                                   shopId: string, shopName: string, marketerData: string)

  /** The session store after the writes of a successful login: the four identity keys always,
      the three shop keys only for a field marketer. */
  function StoredAfterLogin(items: map<string, string>, reply: LoginReply): (m: map<string, string>)
    ensures m.Keys == items.Keys + IdentityKeys + (if reply.userType == "marketer" then MarketerKeys else {})
    ensures forall k :: k !in IdentityKeys && k !in MarketerKeys ==> Get(m, k) == Get(items, k)
  {
    var m := items["userType" := reply.userType]["username" := reply.username]
                  ["fullName" := reply.fullName]["userId" := reply.userId];
    if reply.userType == "marketer" then
      m["shopId" := reply.shopId]["shopName" := reply.shopName]["marketerData" := reply.marketerData]
    else m
  }

  const MarketerKeys: set<string> := {"shopId", "shopName", "marketerData"}
  const IdentityKeys: set<string> := {"userType", "username", "fullName", "userId"}

  /** What a login writes: the identity keys take the reply's values, the shop keys change only
      for a field marketer, and no other key is touched. */
  lemma StoredAfterLoginKeys(items: map<string, string>, reply: LoginReply)
    ensures var m := StoredAfterLogin(items, reply);
      m.Keys == items.Keys + IdentityKeys + (if reply.userType == "marketer" then MarketerKeys else {})
      && m["userType"] == reply.userType && m["username"] == reply.username
      && m["fullName"] == reply.fullName && m["userId"] == reply.userId
      && (reply.userType == "marketer" ==>
            m["shopId"] == reply.shopId && m["shopName"] == reply.shopName && m["marketerData"] == reply.marketerData)
      && (reply.userType != "marketer" ==> forall k :: k in MarketerKeys ==> Get(m, k) == Get(items, k))
      && (forall k :: k !in IdentityKeys && k !in MarketerKeys ==> Get(m, k) == Get(items, k))
  {
  }

  /** The page a successful login opens. */
  function LoginRedirect(userType: string): (page: string)
    ensures page == "hr_dashboard.html" <==> userType == "hr"
    ensures page in {"hr_dashboard.html", "marketer_dashboard.html"}
  {
    if userType == "hr" then "hr_dashboard.html" else "marketer_dashboard.html"
  }

  /** handleLogin end to end: the checks; when they pass, the request goes out and its reply is
      read; a successful reply writes the session store key by key and chooses the dashboard. */
  method HandleLogin(store: SessionStorage, userType: string, usernameField: string, password: string,
                     shopId: string, shopSelectDisabled: bool, reply: Reply<LoginReply>)
    returns (sent: Option<LoginRequest>, redirect: Option<string>, message: string)
    modifies store
    ensures sent.Some? <==> ValidateLogin(userType, usernameField, password, shopId, shopSelectDisabled).Send?
    ensures sent.Some? ==> sent.value == ValidateLogin(userType, usernameField, password, shopId, shopSelectDisabled).request
    ensures redirect.Some? <==> sent.Some? && reply.Succeeded?
    ensures if redirect.Some? then
              store.items == StoredAfterLogin(old(store.items), reply.payload)
              && redirect.value == LoginRedirect(reply.payload.userType)
            else store.items == old(store.items)
  {
    var v := ValidateLogin(userType, usernameField, password, shopId, shopSelectDisabled);
    if v.Reject? {
      message := match v.error
        case NoUserType => "Please select user type"
        case MissingCredentials => "Username and password are required"
        case NoShopsAvailable => "Cannot login: No shops available. Please contact HR to register shops first."
        case NoShopSelected => "Please select your assigned shop";
      return None, None, message;
    }
    sent := Some(v.request);
    match reply {
      case Succeeded(data) =>
        store.SetItem("userType", data.userType);
        store.SetItem("username", data.username);
        store.SetItem("fullName", data.fullName);
        store.SetItem("userId", data.userId);
        if data.userType == "marketer" {
          store.SetItem("shopId", data.shopId);
          store.SetItem("shopName", data.shopName);
          store.SetItem("marketerData", data.marketerData);
        }
        redirect := Some(LoginRedirect(data.userType));
        message := "Login successful! Redirecting...";
      case Declined(msg) =>
        redirect := None;
        message := OrElse(msg, "Invalid credentials. Please try again.");
      case Threw =>
        redirect := None;
        message := "Error connecting to server. Please check your internet connection.";
    }
  }

  // ---------------------------------------------------------------------------
  // Shop list of the login form (loadShops)
  // ---------------------------------------------------------------------------

  /** One option per shop, valued by its id and with its name as text, in the reply's order. */
  function LoginShopOptions(shops: seq<Shop>): (opts: seq<SelectOption>)
    ensures |opts| == |shops|
    ensures forall i :: 0 <= i < |shops| ==> opts[i] == SelectOption(shops[i].shopId, shops[i].shopName)
  {
    seq(|shops|, i requires 0 <= i < |shops| => SelectOption(shops[i].shopId, shops[i].shopName))
  }

  /** loadShops: a non-empty shop list becomes a placeholder and one option per shop (the
      select's disabled flag untouched); an empty or missing list, a `success: false` reply and
      an exception each leave a single explanatory option and a disabled select. */
  method LoadShops(select: Select, reply: Reply<Option<seq<Shop>>>)
    modifies select
    ensures reply.Succeeded? && reply.payload.Some? && |reply.payload.value| > 0 ==>
              select.options == [SelectOption("", "Select your assigned shop")] + LoginShopOptions(reply.payload.value)
              && select.disabled == old(select.disabled)
    ensures reply.Succeeded? && (reply.payload.None? || |reply.payload.value| == 0) ==>
              select.options == [SelectOption("", "No shops available - Contact HR")] && select.disabled
    ensures reply.Declined? ==> select.options == [SelectOption("", "Error loading shops")] && select.disabled
    ensures reply.Threw? ==> select.options == [SelectOption("", "Connection error - Try again")] && select.disabled
  {
    match reply {
      case Succeeded(list) =>
        if list.Some? && |list.value| > 0 {
          var shops := list.value;
          select.ReplaceOptions(SelectOption("", "Select your assigned shop"));
          for i := 0 to |shops|
            invariant |select.options| == i + 1
            invariant select.options[0] == SelectOption("", "Select your assigned shop")
            invariant forall k :: 0 <= k < i ==> select.options[k + 1] == SelectOption(shops[k].shopId, shops[k].shopName)
            invariant select.disabled == old(select.disabled)
          {
            select.Append(SelectOption(shops[i].shopId, shops[i].shopName));
          }
          assert select.options == [SelectOption("", "Select your assigned shop")] + LoginShopOptions(shops);
        } else {
          select.ReplaceOptions(SelectOption("", "No shops available - Contact HR"));
          select.SetDisabled(true);
        }
      case Declined(_) =>
        select.ReplaceOptions(SelectOption("", "Error loading shops"));
        select.SetDisabled(true);
      case Threw =>
        select.ReplaceOptions(SelectOption("", "Connection error - Try again"));
        select.SetDisabled(true);
    }
  }
}
