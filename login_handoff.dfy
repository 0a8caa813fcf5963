/** How the login page hands a session to the two dashboards: the keys a successful login
    writes are exactly what each dashboard's own authentication check reads. */
module LoginHandoff {
  import opened JsText
  import opened Browser
  import opened Backend
  import Auth
  import HrForms
  import MarketerSession

  /** After a login the HR dashboard admits the session exactly when the reply named an HR user
      with a non-empty username, whatever the store held before. */
  lemma HrDashboardAdmitsLogin(items: map<string, string>, reply: Auth.LoginReply)
    ensures HrForms.CheckAuthentication(Auth.StoredAfterLogin(items, reply))
            <==> reply.userType == "hr" && reply.username != ""
  {
    Auth.StoredAfterLoginKeys(items, reply);
  }

  /** After a login the marketer dashboard admits the session exactly when the reply named a
      field marketer with non-empty marketer data; otherwise it sends the tab back to the login
      page at once. */
  lemma MarketerDashboardAdmitsLogin(items: map<string, string>, reply: Auth.LoginReply)
    ensures MarketerSession.CheckAuth(Auth.StoredAfterLogin(items, reply))
            <==> reply.userType == "marketer" && reply.marketerData != ""
    ensures !MarketerSession.CheckAuth(Auth.StoredAfterLogin(items, reply)) ==>
              MarketerSession.Load(Auth.StoredAfterLogin(items, reply)).navigation == MarketerSession.ToLogin(0)
  {
    Auth.StoredAfterLoginKeys(items, reply);
  }

  /** The dashboard a login opens is the one whose check the stored session can pass: an HR
      login is never admitted by the marketer page, a marketer login never by the HR page. */
  lemma RedirectMatchesDashboard(items: map<string, string>, reply: Auth.LoginReply)
    ensures Auth.LoginRedirect(reply.userType) == "hr_dashboard.html" ==>
              !MarketerSession.CheckAuth(Auth.StoredAfterLogin(items, reply))
    ensures Auth.LoginRedirect(reply.userType) == "marketer_dashboard.html" ==>
              !HrForms.CheckAuthentication(Auth.StoredAfterLogin(items, reply))
  {
    HrDashboardAdmitsLogin(items, reply);
    MarketerDashboardAdmitsLogin(items, reply);
  }

  /** The login form's shop select and the HR form's shop select offer the same shop ids in the
      same order; only the labels differ. */
  lemma ShopSelectsOfferSameIds(shops: seq<Shop>)
    ensures |Auth.LoginShopOptions(shops)| == |HrForms.HrShopOptions(shops)|
    ensures forall i :: 0 <= i < |shops| ==>
              Auth.LoginShopOptions(shops)[i].value == HrForms.HrShopOptions(shops)[i].value == shops[i].shopId
  {
  }
}
