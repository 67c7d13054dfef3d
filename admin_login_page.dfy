/**
 * The admin login page: an administrator who is already signed in is sent on
 * to the dashboard; while the check runs, or while that redirect is pending,
 * a spinner is shown; everyone else gets the login form.
 */
module AdminLoginPage {
  import opened Js
  import opened Ui
  import AdminAuth
  import AdminRootPage
  import Firestore

  datatype View = Spinner | LoginForm

  function Redirects(isLoading: bool, isAdmin: bool): (r: seq<Effect>)
    ensures r != [] <==> !isLoading && isAdmin
    ensures r != [] ==> r == [Replace("/admin/dashboard")]
  {
    if !isLoading && isAdmin then [Replace("/admin/dashboard")] else []
  }

  function Render(isLoading: bool, isAdmin: bool): (v: View)
    ensures v == Spinner <==> isLoading || isAdmin
    ensures v == LoginForm <==> !isLoading && !isAdmin
  {
    if isLoading || isAdmin then Spinner else LoginForm
  }

  /** The login page never redirects while the check runs, and a signed-in
      visitor who is not an administrator sees the form and stays. */
  lemma NoRedirectWhileLoadingOrNotAdmin(isLoading: bool, isAdmin: bool)
    ensures isLoading ==> Redirects(isLoading, isAdmin) == []
    ensures !isLoading && !isAdmin ==> Redirects(isLoading, isAdmin) == [] && Render(isLoading, isAdmin) == LoginForm
  {
  }

  /** The two pages agree: with the role lookup finished, a signed-in user who
      is not an administrator is sent from `/admin` to the login page and is
      not sent anywhere from there, so there is no redirect loop; an
      administrator is sent to the dashboard by both. */
  lemma NoRedirectLoop(user: AdminAuth.User, roles: map<string, Firestore.Record>)
    ensures var s := AdminAuth.UseAdminAuth(AdminAuth.UserState(Some(user), false, None),
                                            AdminAuth.ResolvedRoleLookup(AdminAuth.AdminRoleRef(Some(user)), roles));
      && (user.uid !in roles ==>
            && AdminRootPage.Redirects(s.isLoading, s.isAdmin) == [Replace("/admin/login")]
            && Redirects(s.isLoading, s.isAdmin) == []
            && Render(s.isLoading, s.isAdmin) == LoginForm)
      && (user.uid in roles ==>
            && AdminRootPage.Redirects(s.isLoading, s.isAdmin) == [Replace("/admin/dashboard")]
            && Redirects(s.isLoading, s.isAdmin) == [Replace("/admin/dashboard")])
  {
    AdminAuth.AdminIffUidListed(Some(user), false, roles);
  }
}
