/**
 * The `/admin` entry page: once the admin check has finished it sends the
 * visitor on to the dashboard or to the login page. The page itself only ever
 * draws a spinner, so it has no view to model.
 */
module AdminRootPage {
  import opened Ui

  /** The redirect the page's effect issues for `(isLoading, isAdmin)`. */
  function Redirects(isLoading: bool, isAdmin: bool): (r: seq<Effect>)
    ensures isLoading <==> r == []
    ensures !isLoading ==> r == [Replace(if isAdmin then "/admin/dashboard" else "/admin/login")]
  {
    if isLoading then []
    else if isAdmin then [Replace("/admin/dashboard")]
    else [Replace("/admin/login")]
  }

  /** Every state yields at most one redirect, exactly one when the check has
      finished. */
  lemma AtMostOneRedirect(isLoading: bool, isAdmin: bool)
    ensures |Redirects(isLoading, isAdmin)| <= 1
    ensures !isLoading ==> |Redirects(isLoading, isAdmin)| == 1
  {
  }
}
