/**
 * The route guard run before every page request: sign-in pages send a
 * signed-in parent to the dashboard, parent pages demand a parent session,
 * child pages demand a child session. Token verification is a parameter.
 */
module Middleware {
  import opened Wrappers

  /** What a verified session token says about its holder. */
  datatype Claims = Claims(userId: string, role: string)

  /** Where a request is redirected to. */
  datatype Target =
    | Dashboard
    | Login
    | LoginFrom(from: string)  // the sign-in page, asked to return to `from` afterwards
    | SelectChild

  datatype Decision = Next | Redirect(target: Target)

  const AUTH_PATHS: seq<string> := ["/login", "/register"]
  const PARENT_PATHS: seq<string> :=
    ["/dashboard", "/family", "/lessons", "/progress", "/tokens", "/settings", "/subscription", "/select-child"]
  const CHILD_PATHS: seq<string> := ["/learn", "/my-rewards", "/challenges"]

  /** Whether `path` starts with one of the prefixes. */
  predicate MatchesAny(path: string, prefixes: seq<string>)
  {
    exists k :: 0 <= k < |prefixes| && prefixes[k] <= path
  }

  /** A cookie that is present and not empty. */
  predicate Truthy(cookie: Option<string>)
  {
    cookie.Some? && cookie.value != ""
  }

  /** A present token that verifies, with the given role. */
  predicate VerifiesAs(cookie: Option<string>, verify: string -> Option<Claims>, role: string)
  {
    Truthy(cookie) && verify(cookie.value).Some? && verify(cookie.value).value.role == role
  }

  /**
   * The guard's decision for a request of `path` carrying the parent cookie
   * `token` and the child cookie `childToken`. The first matching group
   * decides: sign-in pages, then parent pages, then child pages.
   */
  function Decide(path: string, token: Option<string>, childToken: Option<string>,
                  verify: string -> Option<Claims>): (d: Decision)
    ensures d == Redirect(Dashboard) ==> MatchesAny(path, AUTH_PATHS)
    ensures d.Redirect? ==> MatchesAny(path, AUTH_PATHS) || MatchesAny(path, PARENT_PATHS) || MatchesAny(path, CHILD_PATHS)
    ensures d.Redirect? && d.target.LoginFrom? ==>
              d.target.from == path && !MatchesAny(path, AUTH_PATHS) && MatchesAny(path, PARENT_PATHS)
    ensures d == Redirect(SelectChild) ==>
              !MatchesAny(path, AUTH_PATHS) && !MatchesAny(path, PARENT_PATHS) && MatchesAny(path, CHILD_PATHS)
  {
    if MatchesAny(path, AUTH_PATHS) then
      if Truthy(token) && verify(token.value).Some? then Redirect(Dashboard) else Next
    else if MatchesAny(path, PARENT_PATHS) then
      if !Truthy(token) then Redirect(LoginFrom(path))
      else if !VerifiesAs(token, verify, "PARENT") then Redirect(Login)
      else Next
    else if MatchesAny(path, CHILD_PATHS) then
      if !Truthy(childToken) then
        if !Truthy(token) then Redirect(Login) else Redirect(SelectChild)
      else if !VerifiesAs(childToken, verify, "CHILD") then Redirect(SelectChild)
      else Next
    else Next
  }

  /** A sign-in page passes unless the parent cookie verifies, whatever the role; then it goes to the dashboard. */
  lemma AuthPathDecision(path: string, token: Option<string>, childToken: Option<string>, verify: string -> Option<Claims>)
    requires MatchesAny(path, AUTH_PATHS)
    ensures Decide(path, token, childToken, verify) == Redirect(Dashboard) <==> Truthy(token) && verify(token.value).Some?
    ensures Decide(path, token, childToken, verify) != Redirect(Dashboard) ==> Decide(path, token, childToken, verify) == Next
  {
  }

  /** A parent page passes exactly when the parent cookie verifies as a parent; else it goes to sign-in. */
  lemma ParentPathGuarded(path: string, token: Option<string>, childToken: Option<string>, verify: string -> Option<Claims>)
    requires !MatchesAny(path, AUTH_PATHS) && MatchesAny(path, PARENT_PATHS)
    ensures Decide(path, token, childToken, verify) == Next <==> VerifiesAs(token, verify, "PARENT")
    ensures !Truthy(token) ==> Decide(path, token, childToken, verify) == Redirect(LoginFrom(path))
    ensures Truthy(token) && !VerifiesAs(token, verify, "PARENT") ==> Decide(path, token, childToken, verify) == Redirect(Login)
  {
  }

  /**
   * A child page passes exactly when the child cookie verifies as a child.
   * Without a child cookie it goes to sign-in when there is no parent cookie
   * either, else to child selection; a bad child cookie goes to child selection.
   */
  lemma ChildPathGuarded(path: string, token: Option<string>, childToken: Option<string>, verify: string -> Option<Claims>)
    requires !MatchesAny(path, AUTH_PATHS) && !MatchesAny(path, PARENT_PATHS) && MatchesAny(path, CHILD_PATHS)
    ensures Decide(path, token, childToken, verify) == Next <==> VerifiesAs(childToken, verify, "CHILD")
    ensures !Truthy(childToken) && !Truthy(token) ==> Decide(path, token, childToken, verify) == Redirect(Login)
    ensures !Truthy(childToken) && Truthy(token) ==> Decide(path, token, childToken, verify) == Redirect(SelectChild)
    ensures Truthy(childToken) && !VerifiesAs(childToken, verify, "CHILD") ==>
              Decide(path, token, childToken, verify) == Redirect(SelectChild)
  {
  }

  /** A path in no group always passes. */
  lemma UnguardedPathPasses(path: string, token: Option<string>, childToken: Option<string>, verify: string -> Option<Claims>)
    requires !MatchesAny(path, AUTH_PATHS) && !MatchesAny(path, PARENT_PATHS) && !MatchesAny(path, CHILD_PATHS)
    ensures Decide(path, token, childToken, verify) == Next
  {
  }

  /** Only a request holding the right verified session reaches a guarded page. */
  lemma NextMeansAuthorised(path: string, token: Option<string>, childToken: Option<string>, verify: string -> Option<Claims>)
    requires Decide(path, token, childToken, verify) == Next
    ensures !MatchesAny(path, AUTH_PATHS) && MatchesAny(path, PARENT_PATHS) ==> VerifiesAs(token, verify, "PARENT")
    ensures !MatchesAny(path, AUTH_PATHS) && !MatchesAny(path, PARENT_PATHS) && MatchesAny(path, CHILD_PATHS) ==>
              VerifiesAs(childToken, verify, "CHILD")
    ensures MatchesAny(path, AUTH_PATHS) ==> !(Truthy(token) && verify(token.value).Some?)
  {
  }

  /** A string differing from `s` at some position they share is no prefix of it. */
  lemma NotPrefix(p: string, s: string, i: nat)
    requires i < |p| && i < |s| && p[i] != s[i]
    ensures !(p <= s)
  {
  }

  /** The dashboard and the child-selection page are parent pages, not sign-in pages. */
  lemma RedirectPagesClassified()
    ensures MatchesAny("/login", AUTH_PATHS)
    ensures !MatchesAny("/dashboard", AUTH_PATHS) && MatchesAny("/dashboard", PARENT_PATHS)
    ensures !MatchesAny("/select-child", AUTH_PATHS) && MatchesAny("/select-child", PARENT_PATHS)
  {
    assert AUTH_PATHS[0] <= "/login";
    assert PARENT_PATHS[0] <= "/dashboard";
    assert PARENT_PATHS[7] <= "/select-child";
    NotPrefix(AUTH_PATHS[0], "/dashboard", 1);
    NotPrefix(AUTH_PATHS[1], "/dashboard", 1);
    NotPrefix(AUTH_PATHS[0], "/select-child", 1);
    NotPrefix(AUTH_PATHS[1], "/select-child", 1);
  }

  /** The page a redirect leads to. */
  function TargetPath(t: Target): string
  {
    match t
    case Dashboard => "/dashboard"
    case Login => "/login"
    case LoginFrom(_) => "/login"
    case SelectChild => "/select-child"
  }

  /**
   * When every verifiable parent cookie is a parent's, following the guard's
   * redirects with the same cookies reaches a page that passes after at most
   * two redirects.
   */
  lemma RedirectsSettle(path: string, token: Option<string>, childToken: Option<string>, verify: string -> Option<Claims>)
    requires Truthy(token) && verify(token.value).Some? ==> verify(token.value).value.role == "PARENT"
    ensures var d1 := Decide(path, token, childToken, verify);
            d1.Redirect? ==>
              var d2 := Decide(TargetPath(d1.target), token, childToken, verify);
              d2.Next? || Decide(TargetPath(d2.target), token, childToken, verify).Next?
  {
    RedirectPagesClassified();
  }

  /**
   * Without that condition the guard can loop: a verifiable child token in
   * the parent cookie sends the sign-in page to the dashboard and the
   * dashboard back to sign-in.
   */
  lemma ChildTokenInParentCookieLoops(verify: string -> Option<Claims>)
    requires verify("t") == Some(Claims("u", "CHILD"))
    ensures Decide("/login", Some("t"), None, verify) == Redirect(Dashboard)
    ensures Decide("/dashboard", Some("t"), None, verify) == Redirect(Login)
  {
    RedirectPagesClassified();
  }

  /** Path prefixes the guard is never run for (the framework's own assets and the API). */
  const EXCLUDED_PREFIXES: seq<string> :=
    ["api", "_next/static", "_next/image", "favicon.ico", "images", "manifest.webmanifest"]

  /** Whether the guard runs at all for `path`: a rooted path not continuing with an excluded prefix. */
  predicate GuardApplies(path: string)
  {
    |path| > 0 && path[0] == '/' && !MatchesAny(path[1..], EXCLUDED_PREFIXES)
  }

  /** Guarded prefix `p` and excluded prefix `x` differ within the first three characters after the slash. */
  predicate Distinguished(p: string, x: string)
  {
    |p| >= 4 && |x| >= 3 && (p[1] != x[0] || p[2] != x[1] || p[3] != x[2])
  }

  /** A path under a prefix distinguished from `x` does not continue with `x` after its slash. */
  lemma DistinguishedEscapes(p: string, path: string, x: string)
    requires Distinguished(p, x) && p <= path
    ensures !(x <= path[1..])
  {
    assert path[1..][0] == p[1] && path[1..][1] == p[2] && path[1..][2] == p[3];
  }

  /** Every guarded prefix starts with a slash and is distinguished from every excluded prefix. */
  lemma GuardedPrefixesDistinguished(prefixes: seq<string>)
    requires prefixes == AUTH_PATHS || prefixes == PARENT_PATHS || prefixes == CHILD_PATHS
    ensures forall i, j :: 0 <= i < |prefixes| && 0 <= j < |EXCLUDED_PREFIXES| ==>
              prefixes[i][0] == '/' && Distinguished(prefixes[i], EXCLUDED_PREFIXES[j])
  {
  }

  /**
   * The matcher never exempts a guarded page: a path in one of the three
   * groups is handled by the guard.
   */
  lemma ProtectedPagesGuarded(path: string, token: Option<string>, childToken: Option<string>, verify: string -> Option<Claims>)
    requires MatchesAny(path, AUTH_PATHS) || MatchesAny(path, PARENT_PATHS) || MatchesAny(path, CHILD_PATHS)
    ensures GuardApplies(path)
    ensures HandleRequest(path, token, childToken, verify) == Decide(path, token, childToken, verify)
  {
    var prefixes := if MatchesAny(path, AUTH_PATHS) then AUTH_PATHS
                    else if MatchesAny(path, PARENT_PATHS) then PARENT_PATHS else CHILD_PATHS;
    var i :| 0 <= i < |prefixes| && prefixes[i] <= path;
    GuardedPrefixesDistinguished(prefixes);
    forall j | 0 <= j < |EXCLUDED_PREFIXES|
      ensures !(EXCLUDED_PREFIXES[j] <= path[1..])
    {
      DistinguishedEscapes(prefixes[i], path, EXCLUDED_PREFIXES[j]);
    }
    assert path[0] == prefixes[i][0];
  }

  /** The outcome of a page request: the guard's decision where it applies, else passing. */
  function HandleRequest(path: string, token: Option<string>, childToken: Option<string>,
                         verify: string -> Option<Claims>): (d: Decision)
    ensures !GuardApplies(path) ==> d == Next
    ensures GuardApplies(path) ==> d == Decide(path, token, childToken, verify)
  {
    if GuardApplies(path) then Decide(path, token, childToken, verify) else Next
  }
}
