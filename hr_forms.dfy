/** The HR dashboard's session check, its two registration forms and the shop select of the
    marketer registration form. */
module HrForms {
  import opened JsText
  import opened Browser
  import opened Backend

  /** checkAuthentication: the HR dashboard stays open only for a stored HR session. */
  function CheckAuthentication(items: map<string, string>): (ok: bool)
    ensures ok <==> Get(items, "userType") == Some("hr") && Present(Get(items, "username"))
  {
    var userType := Get(items, "userType");
    var username := Get(items, "username");
    !(!Present(userType) || !Present(username) || userType.value != "hr")
  }

  datatype FormError = AllFieldsRequired | PasswordTooShort | NoShopSelected

  datatype ShopRequest = ShopRequest(shopName: string, shopAddress: string,
                                     registeredByHRId: Option<string>, registeredByHRName: Option<string>)

  /** handleRegisterShop's check: both fields must hold something other than whitespace; the
      request carries them trimmed, with the HR user's id and name read from the session store. */
  function ValidateShop(nameField: string, addressField: string, hrUserId: Option<string>, hrFullName: Option<string>)
    : (r: Submission<ShopRequest, FormError>)
    ensures r.Send? <==> !AllWhitespace(nameField) && !AllWhitespace(addressField)
    ensures r.Reject? ==> r.error == AllFieldsRequired
    ensures r.Send? ==> r.request.shopName == Trim(nameField) && r.request.shopAddress == Trim(addressField)
                        && r.request.registeredByHRId == hrUserId && r.request.registeredByHRName == hrFullName
  {
    var shopName := Trim(nameField);
    var shopAddress := Trim(addressField);
    if shopName == "" || shopAddress == "" then Reject(AllFieldsRequired)
    else Send(ShopRequest(shopName, shopAddress, hrUserId, hrFullName))
  }

  datatype MarketerRequest = MarketerRequest(fullName: string, username: string, password: string, shopId: string,
                                             registeredByHRId: Option<string>, registeredByHRName: Option<string>)

  /** handleRegisterMarketer's checks. Unlike signup, the password is trimmed too. The
      "select a shop" warning that follows the two checks can never be reached: the first check
      already stops an empty shop id. */
  function ValidateMarketer(fullNameField: string, usernameField: string, passwordField: string, shopId: string,
                            hrUserId: Option<string>, hrFullName: Option<string>)
    : (r: Submission<MarketerRequest, FormError>)
    ensures r != Reject(NoShopSelected)
    ensures r == Reject(AllFieldsRequired) <==>
              AllWhitespace(fullNameField) || AllWhitespace(usernameField) || AllWhitespace(passwordField) || shopId == ""
    ensures r == Reject(PasswordTooShort) <==>
              !AllWhitespace(fullNameField) && !AllWhitespace(usernameField) && shopId != ""
              && 0 < Utf16Length(Trim(passwordField)) < 6
    ensures r.Send? ==> r.request == MarketerRequest(Trim(fullNameField), Trim(usernameField), Trim(passwordField),
                                                      shopId, hrUserId, hrFullName)
                        && Utf16Length(r.request.password) >= 6 && shopId != ""
  {
    var fullName := Trim(fullNameField);
    var username := Trim(usernameField);
    var password := Trim(passwordField);
    if fullName == "" || username == "" || password == "" || shopId == "" then Reject(AllFieldsRequired)
    else if Utf16Length(password) < 6 then Reject(PasswordTooShort)
    else if shopId == "" then Reject(NoShopSelected)
    else Send(MarketerRequest(fullName, username, password, shopId, hrUserId, hrFullName))
  }

  /** The HR form's shop options: valued by id, shown as `<shopName> (<shopId>)`, in order. */
  function HrShopOptions(shops: seq<Shop>): (opts: seq<SelectOption>)
    ensures |opts| == |shops|
    ensures forall i :: 0 <= i < |shops| ==>
              opts[i] == SelectOption(shops[i].shopId, shops[i].shopName + " (" + shops[i].shopId + ")")
  {
    seq(|shops|, i requires 0 <= i < |shops| => SelectOption(shops[i].shopId, shops[i].shopName + " (" + shops[i].shopId + ")"))
  }

  /** updateShopDropdowns: no shops leaves one explanatory option and a disabled select;
      otherwise the select is enabled and lists a default option and then every shop, in order. */
  method UpdateShopDropdowns(select: Select, shops: Option<seq<Shop>>)
    modifies select
    ensures shops.None? || |shops.value| == 0 ==>
              select.options == [SelectOption("", "No shops available - Register a shop first")] && select.disabled
    ensures shops.Some? && |shops.value| > 0 ==>
              select.options == [SelectOption("", "-- Select a shop --")] + HrShopOptions(shops.value) && !select.disabled
  {
    select.ClearOptions();
    if shops.None? || |shops.value| == 0 {
      select.ReplaceOptions(SelectOption("", "No shops available - Register a shop first"));
      select.SetDisabled(true);
      return;
    }
    var list := shops.value;
    select.SetDisabled(false);
    select.Append(SelectOption("", "-- Select a shop --"));
    for i := 0 to |list|
      invariant |select.options| == i + 1 && !select.disabled
      invariant select.options[0] == SelectOption("", "-- Select a shop --")
      invariant forall k :: 0 <= k < i ==>
                  select.options[k + 1] == SelectOption(list[k].shopId, list[k].shopName + " (" + list[k].shopId + ")")
    {
      select.Append(SelectOption(list[i].shopId, list[i].shopName + " (" + list[i].shopId + ")"));
    }
    assert select.options == [SelectOption("", "-- Select a shop --")] + HrShopOptions(list);
  }
}
