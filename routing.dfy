/**
 * getRouteFromHash of src/components/content/index.tsx: the page shown for
 * the location's hash. `location.hash` is the parameter `hash`.
 */
module Routing {
  import opened Basics

  /** The pages the content area can show. */
  const Routes: seq<string> := ["dashboard", "requests", "analysis"]

  const DefaultHash: string := "#/dashboard"

  /** `p` occurs in `s` at position j. */
  predicate OccursAt(s: string, p: string, j: nat)
  {
    j + |p| <= |s| && s[j..j + |p|] == p
  }

  lemma OccursAtTail(s: string, p: string, j: nat)
    requires s != []
    ensures OccursAt(s, p, j + 1) <==> OccursAt(s[1..], p, j)
  {
    if j + 1 + |p| <= |s| {
      assert s[j + 1..j + 1 + |p|] == s[1..][j..j + |p|];
    }
  }

  /** The first position where `p` occurs in `s`. */
  function IndexOf(s: string, p: string): (r: Option<nat>)
    ensures r.Some? ==> OccursAt(s, p, r.value)
    ensures r.Some? ==> forall j: nat :: j < r.value ==> !OccursAt(s, p, j)
    ensures r.None? ==> forall j: nat :: !OccursAt(s, p, j)
    decreases |s|
  {
    if |s| < |p| then None
    else if s[..|p|] == p then Some(0)
    else
      var tail := IndexOf(s[1..], p);
      assert forall j: nat :: 0 < j ==> (OccursAt(s, p, j) <==> OccursAt(s[1..], p, j - 1)) by {
        forall j: nat | 0 < j ensures OccursAt(s, p, j) <==> OccursAt(s[1..], p, j - 1) {
          OccursAtTail(s, p, j - 1);
        }
      }
      assert !OccursAt(s, p, 0);
      match tail
      case None => None
      case Some(k) => Some(k + 1)
  }

  /** `s.replace(p, w)` with a string pattern: only the first occurrence is
      replaced. */
  function ReplaceFirst(s: string, p: string, w: string): string
  {
    match IndexOf(s, p)
    case None => s
    case Some(i) => s[..i] + w + s[i + |p|..]
  }

  /** `getRouteFromHash()`. */
  function GetRouteFromHash(hash: string): (route: string)
    ensures route in Routes
  {
    var h := ReplaceFirst(if hash == "" then DefaultHash else hash, "#/", "");
    if h in Routes then h else "dashboard"
  }

  /** A hash of the form "#/x" shows page x when x is a page, and the
      dashboard otherwise; no hash at all shows the dashboard. */
  lemma HashRoute(hash: string)
    requires |hash| >= 2 && hash[..2] == "#/"
    ensures GetRouteFromHash(hash) == if hash[2..] in Routes then hash[2..] else "dashboard"
  {
    assert IndexOf(hash, "#/") == Some(0);
    assert ReplaceFirst(hash, "#/", "") == hash[2..];
  }

  lemma EmptyHashRoute()
    ensures GetRouteFromHash("") == "dashboard"
  {
    HashRoute(DefaultHash);
    assert DefaultHash[2..] == "dashboard";
  }

  /** Each page's own hash "#/page" reaches it. */
  lemma PageHashes(page: string)
    requires page in Routes
    ensures GetRouteFromHash("#/" + page) == page
  {
    var hash := "#/" + page;
    assert hash[..2] == "#/" && hash[2..] == page;
    HashRoute(hash);
  }

  /** Anything but an exact page name falls back to the dashboard: a longer
      path, another case, or a second "#/" (only the first is removed). */
  lemma NearMissesShowDashboard(hash: string)
    requires hash == "#/requests/1" || hash == "#/Requests" || hash == "#/#/requests"
    ensures GetRouteFromHash(hash) == "dashboard"
  {
    var x := hash[2..];
    assert hash == "#/" + x;
    if hash == "#/requests/1" {
      assert x == "requests/1" && |x| == 10;
    } else if hash == "#/Requests" {
      assert x == "Requests" && x[0] == 'R';
    } else {
      assert x == "#/requests" && x[0] == '#';
    }
    OtherPathShowsDashboard(x);
  }

  /** "#/x" for an x that is not a page shows the dashboard. */
  lemma OtherPathShowsDashboard(x: string)
    requires x !in Routes
    ensures GetRouteFromHash("#/" + x) == "dashboard"
  {
    var hash := "#/" + x;
    assert hash[..2] == "#/" && hash[2..] == x;
    HashRoute(hash);
  }
}
