/**
 * The gate in front of the admin pages: a request whose path starts with one
 * of the admin prefixes goes through only with a session token that
 * verifies; otherwise it is redirected to the login page, which is told where
 * the visitor was heading. The token is the value of the `travlr-token`
 * cookie, if any. The JWT check itself (signature and `exp`) is the
 * `jwtVerify` parameter: `None` for a token it rejects.
 */
module Middleware {
  import opened Wrappers
  import opened Text

  /** The prefixes of the pages that need a session. */
  const AdminPaths: seq<string> := ["/admin/list-trips", "/admin/add-trip", "/admin/edit-trip"]

  /**
   * `verifyToken`: no payload without a token or without a secret, and no
   * payload when verification fails; it never fails itself.
   */
  function VerifyToken<P>(token: Option<string>, secret: Option<string>, jwtVerify: (string, string) -> Option<P>): (r: Option<P>)
    ensures r.Some? <==> Truthy(token) && Truthy(secret) && jwtVerify(token.value, secret.value).Some?
    ensures r.Some? ==> r == jwtVerify(token.value, secret.value)
  {
    if !Truthy(token) || !Truthy(secret) then None
    else jwtVerify(token.value, secret.value)
  }

  /** `paths.some(p => pathname.startsWith(p))`. */
  function SomePrefix(paths: seq<string>, pathname: string): (r: bool)
    ensures r <==> exists k :: 0 <= k < |paths| && StartsWith(pathname, paths[k])
  {
    if paths == [] then false
    else StartsWith(pathname, paths[0]) || SomePrefix(paths[1..], pathname)
  }

  /** The admin gate's path test: one of the three admin prefixes starts the path. */
  predicate IsGated(pathname: string)
    ensures IsGated(pathname) <==>
      StartsWith(pathname, "/admin/list-trips") || StartsWith(pathname, "/admin/add-trip")
      || StartsWith(pathname, "/admin/edit-trip")
  {
    assert AdminPaths[0] == "/admin/list-trips" && AdminPaths[1] == "/admin/add-trip";
    assert AdminPaths[2] == "/admin/edit-trip";
    SomePrefix(AdminPaths, pathname)
  }

  /** What the middleware answers: let the request through, or redirect it. */
  datatype Outcome = Next | Redirect(location: string, from: string)

  /**
   * `middleware`: a gated path without a verified payload is redirected to
   * `/login?from=<pathname>`; everything else passes.
   */
  function Decide<P>(pathname: string, token: Option<string>, secret: Option<string>,
                     jwtVerify: (string, string) -> Option<P>): (o: Outcome)
    ensures o.Redirect? <==> IsGated(pathname) && VerifyToken(token, secret, jwtVerify).None?
    ensures o.Redirect? ==> o == Redirect("/login", pathname)
  {
    if IsGated(pathname) && VerifyToken(token, secret, jwtVerify).None? then Redirect("/login", pathname)
    else Next
  }

  /** A path outside the admin prefixes passes whatever the cookie holds. */
  lemma UngatedPasses<P>(pathname: string, token: Option<string>, secret: Option<string>,
                         jwtVerify: (string, string) -> Option<P>)
    requires forall k :: 0 <= k < |AdminPaths| ==> !StartsWith(pathname, AdminPaths[k])
    ensures Decide(pathname, token, secret, jwtVerify) == Next
  {
  }

  /** Without a token, or without a secret, every gated path is redirected. */
  lemma NoSessionRedirected<P>(pathname: string, token: Option<string>, secret: Option<string>,
                               jwtVerify: (string, string) -> Option<P>)
    requires IsGated(pathname)
    requires !Truthy(token) || !Truthy(secret)
    ensures Decide(pathname, token, secret, jwtVerify) == Redirect("/login", pathname)
  {
  }

  /**
   * Prefix matching is literal: `/admin/add-trips` and an edit page are
   * gated, `/admin` and `/admin/` are not.
   */
  lemma GatedExamples()
    ensures IsGated("/admin/add-trips")
    ensures IsGated("/admin/edit-trip/T1")
    ensures !IsGated("/admin")
    ensures !IsGated("/admin/")
    ensures !IsGated("/trips")
  {
    assert StartsWith("/admin/add-trips", AdminPaths[1]) by {
      assert "/admin/add-trips"[..|AdminPaths[1]|] == "/admin/add-trip";
    }
    assert StartsWith("/admin/edit-trip/T1", AdminPaths[2]) by {
      assert "/admin/edit-trip/T1"[..|AdminPaths[2]|] == "/admin/edit-trip";
    }
    assert !StartsWith("/trips", AdminPaths[0]) by {
      assert "/trips"[1] != AdminPaths[0][1];
    }
    assert !StartsWith("/trips", AdminPaths[1]) by {
      assert "/trips"[1] != AdminPaths[1][1];
    }
    assert !StartsWith("/trips", AdminPaths[2]) by {
      assert "/trips"[1] != AdminPaths[2][1];
    }
  }

  /**
   * The trips endpoint is not behind the gate: no admin prefix starts
   * `/api/trips`, so even where the middleware runs it lets every request
   * to it through, `POST` included.
   */
  lemma ApiTripsNotGated<P>(token: Option<string>, secret: Option<string>, jwtVerify: (string, string) -> Option<P>)
    ensures !IsGated("/api/trips")
    ensures Decide("/api/trips", token, secret, jwtVerify) == Next
  {
    assert "/api/trips"[1] != 'd';
  }
}
