/**
 * The root layout's auth guard (apps/mobile/app/_layout.tsx): once the
 * session is known, a signed-out user inside the `(app)` group is sent to
 * the sign-in screen and a signed-in user outside it is sent to the feed.
 */
module RouteGuard {

  import opened Wrappers
  import Text

  const APP_GROUP: string := "(app)"
  const SIGN_IN_ROUTE: string := "/"
  const FEED_ROUTE: string := "/(app)/feed"

  /** `segments[0] === "(app)"`; an empty segment list has no first segment. */
  predicate InApp(segments: seq<string>) {
    |segments| > 0 && segments[0] == APP_GROUP
  }

  /** The route `router.replace` is called with, if any. */
  function Redirect(loading: bool, signedIn: bool, segments: seq<string>): (target: Option<string>)
    ensures loading ==> target.None?
    ensures target == Some(SIGN_IN_ROUTE) <==> !loading && !signedIn && InApp(segments)
    ensures target == Some(FEED_ROUTE) <==> !loading && signedIn && !InApp(segments)
    ensures target.None? <==> loading || signedIn == InApp(segments)
  {
    if loading then None
    else
      var inApp := InApp(segments);
      if !signedIn && inApp then Some(SIGN_IN_ROUTE)
      else if signedIn && !inApp then Some(FEED_ROUTE)
      else None
  }

  /** The non-empty "/"-separated pieces of a route, as the router reports them as segments. */
  function RouteSegments(route: string): (segments: seq<string>)
    ensures forall i :: 0 <= i < |segments| ==> segments[i] != ""
  {
    NonEmpty(Text.Split(route, '/'))
  }

  function NonEmpty(pieces: seq<string>): (kept: seq<string>)
    ensures forall i :: 0 <= i < |kept| ==> kept[i] != ""
  {
    if |pieces| == 0 then []
    else if pieces[0] == "" then NonEmpty(pieces[1..])
    else [pieces[0]] + NonEmpty(pieces[1..])
  }

  /** Which area the user is in depends only on the first segment. */
  lemma InAppDependsOnFirstSegment(a: seq<string>, b: seq<string>)
    requires |a| > 0 && |b| > 0 && a[0] == b[0]
    ensures Redirect(false, true, a) == Redirect(false, true, b)
    ensures Redirect(false, false, a) == Redirect(false, false, b)
  {
  }

  lemma SignInRouteSegments()
    ensures RouteSegments(SIGN_IN_ROUTE) == []
  {
    Text.SplitAroundSeparator("", "", '/');
    Text.SplitNoSeparator("", '/');
  }

  /** The feed route is the group and the screen joined by "/" after an empty leading piece. */
  lemma FeedRouteSegments()
    ensures RouteSegments(FEED_ROUTE) == [APP_GROUP, "feed"]
  {
    var pieces := ["", APP_GROUP, "feed"];
    assert Text.Join(pieces[2..], '/') == "feed";
    assert Text.Join(pieces[1..], '/') == APP_GROUP + ['/'] + "feed";
    assert Text.Join(pieces, '/') == FEED_ROUTE;
    Text.JoinThenSplit(pieces, '/');
    assert pieces[1..] == [APP_GROUP, "feed"];
    assert pieces[1..][1..] == ["feed"];
    assert NonEmpty(["feed"]) == ["feed"];
  }

  /** The guard never bounces: once at the route it redirected to, it asks for no further redirect. */
  lemma RedirectSettles(signedIn: bool, segments: seq<string>)
    requires Redirect(false, signedIn, segments).Some?
    ensures Redirect(false, signedIn, RouteSegments(Redirect(false, signedIn, segments).value)).None?
  {
    if signedIn {
      FeedRouteSegments();
    } else {
      SignInRouteSegments();
    }
  }
}
