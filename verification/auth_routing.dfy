/** The routing decision taken for every request: signed-in users are sent
    from the landing page to the dashboard, signed-out users are refused the
    application routes, and everything else goes through. */
module AuthRouting {

  datatype Decision = RedirectTo(path: string) | Allow | Deny

  /** `String.prototype.startsWith`. */
  predicate StartsWith(s: string, prefix: string) {
    |prefix| <= |s| && s[..|prefix|] == prefix
  }

  const AppRoutes: seq<string> := ["/dashboard", "/checklist", "/trades", "/mistakes", "/mypage", "/quiz"]

  /** A path under one of the application prefixes. */
  predicate IsAppRoute(pathname: string) {
    exists i | 0 <= i < |AppRoutes| :: StartsWith(pathname, AppRoutes[i])
  }

  /** The `authorized` callback. */
  function Authorized(isLoggedIn: bool, pathname: string): (d: Decision)
    ensures d.RedirectTo? <==> isLoggedIn && pathname == "/"
    ensures d.RedirectTo? ==> d.path == "/dashboard"
    ensures d == Deny <==> !isLoggedIn && IsAppRoute(pathname)
    ensures isLoggedIn ==> d != Deny
  {
    if isLoggedIn && pathname == "/" then RedirectTo("/dashboard")
    else if !isLoggedIn && IsAppRoute(pathname) then Deny
    else Allow
  }

  /** Protection is by prefix: extending a protected path keeps it
      protected, so "/quizzes" and "/trades/42" are refused to signed-out
      users just like "/quiz" and "/trades". */
  lemma ProtectionIsPrefixClosed(pathname: string, suffix: string)
    requires IsAppRoute(pathname)
    ensures IsAppRoute(pathname + suffix)
    ensures Authorized(false, pathname + suffix) == Deny
  {
    var i :| 0 <= i < |AppRoutes| && StartsWith(pathname, AppRoutes[i]);
    assert (pathname + suffix)[..|AppRoutes[i]|] == pathname[..|AppRoutes[i]|];
  }

  /** Concrete decisions: the landing page, a protected page and its
      extension, and a page outside the application prefixes. */
  lemma ExampleDecisions()
    ensures Authorized(true, "/") == RedirectTo("/dashboard")
    ensures Authorized(false, "/") == Allow
    ensures Authorized(false, "/dashboard") == Deny
    ensures Authorized(true, "/dashboard") == Allow
    ensures Authorized(false, "/quizzes") == Deny
    ensures Authorized(false, "/analysis") == Allow
  {
    assert StartsWith("/dashboard", AppRoutes[0]);
    assert StartsWith("/quizzes", AppRoutes[5]) by {
      assert "/quizzes"[..5] == "/quiz";
    }
    assert !IsAppRoute("/analysis") by {
      var p := "/analysis";
      assert p[1] == 'a';
      forall i | 0 <= i < |AppRoutes|
        ensures !StartsWith(p, AppRoutes[i])
      {
        assert AppRoutes[i][1] != 'a';
      }
    }
  }
}
