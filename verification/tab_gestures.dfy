/** useTabGestures: which tab the route is on, where a swipe leads, and how
    a pan gesture's end is classified. */
module TabGestures {
  import opened Wrappers

  datatype Direction = Left | Right

  /** `tabRoutes.indexOf(route)`: the first position holding `route`, or -1. */
  function IndexOf(routes: seq<string>, route: string): (r: int)
    ensures -1 <= r < |routes|
    ensures r >= 0 ==> routes[r] == route && forall k :: 0 <= k < r ==> routes[k] != route
    ensures r == -1 ==> route !in routes
  {
    if |routes| == 0 then -1
    else if routes[0] == route then 0
    else
      var r := IndexOf(routes[1..], route);
      assert forall k :: 1 <= k < |routes| ==> routes[k] == routes[1..][k - 1];
      if r == -1 then -1 else r + 1
  }

  /** The last segment is missing or empty (both falsy) or is the group
      segment "(tabs)": the index tab is showing. */
  predicate OnIndexRoute(segments: seq<string>) {
    |segments| == 0 || segments[|segments| - 1] == "" || segments[|segments| - 1] == "(tabs)"
  }

  /** `getCurrentTabIndex()`. */
  function CurrentTabIndex(segments: seq<string>, tabRoutes: seq<string>): (r: nat)
    ensures |tabRoutes| > 0 ==> r < |tabRoutes|
    ensures OnIndexRoute(segments) ==> r == 0
    ensures !OnIndexRoute(segments) && segments[|segments| - 1] !in tabRoutes ==> r == 0
    ensures !OnIndexRoute(segments) && segments[|segments| - 1] in tabRoutes ==>
      tabRoutes[r] == segments[|segments| - 1] &&
      forall k :: 0 <= k < r ==> tabRoutes[k] != segments[|segments| - 1]
  {
    if OnIndexRoute(segments) then 0
    else
      var index := IndexOf(tabRoutes, segments[|segments| - 1]);
      if index >= 0 then index else 0
  }

  /** The tab a swipe in `direction` aims at; the ends of the bar hold. */
  function TargetIndex(current: int, tabCount: int, direction: Direction): (r: int)
    ensures direction == Left ==> (if current > 0 then r == current - 1 else r == current)
    ensures direction == Right ==> (if current < tabCount - 1 then r == current + 1 else r == current)
  {
    match direction
    case Left => if current > 0 then current - 1 else current
    case Right => if current < tabCount - 1 then current + 1 else current
  }

  const TabsPrefix: string := "/(tabs)/"

  /** The pushed path: the base tabs path for the index route, else the route under it. */
  function TabPath(route: string): string {
    if route == "" then TabsPrefix else TabsPrefix + route
  }

  /** Both branches of the path choice produce the prefix followed by the route. */
  lemma TabPathIsPrefixed(route: string)
    ensures TabPath(route) == TabsPrefix + route
  {
  }

  /** `navigateToTab(direction)`: the path pushed, or nothing when the target
      is the tab already showing. */
  function NavigateToTab(segments: seq<string>, tabRoutes: seq<string>, direction: Direction): (r: Option<string>)
    ensures var current := CurrentTabIndex(segments, tabRoutes);
      r.None? <==> TargetIndex(current, |tabRoutes|, direction) == current
  {
    var current := CurrentTabIndex(segments, tabRoutes);
    var target := TargetIndex(current, |tabRoutes|, direction);
    if target != current then Some(TabPath(tabRoutes[target])) else None
  }

  /** A navigation moves exactly one tab, in the swipe's direction, stays on
      the bar and pushes that tab's path. */
  lemma NavigationMovesOneTab(segments: seq<string>, tabRoutes: seq<string>, direction: Direction)
    requires NavigateToTab(segments, tabRoutes, direction).Some?
    ensures var current := CurrentTabIndex(segments, tabRoutes);
      var target := if direction == Left then current - 1 else current + 1;
      && 0 <= target < |tabRoutes|
      && NavigateToTab(segments, tabRoutes, direction) == Some(TabsPrefix + tabRoutes[target])
  {
    var current := CurrentTabIndex(segments, tabRoutes);
    var target := TargetIndex(current, |tabRoutes|, direction);
    TabPathIsPrefixed(tabRoutes[target]);
  }

  /** Every tab but the first can be left to the left, every tab but the last
      to the right. */
  lemma InnerTabsNavigate(segments: seq<string>, tabRoutes: seq<string>)
    requires |tabRoutes| > 0
    ensures CurrentTabIndex(segments, tabRoutes) > 0 <==> NavigateToTab(segments, tabRoutes, Left).Some?
    ensures CurrentTabIndex(segments, tabRoutes) < |tabRoutes| - 1 <==> NavigateToTab(segments, tabRoutes, Right).Some?
  {
  }

  const SwipeThreshold: real := 50.0
  const VelocityThreshold: real := 300.0

  /** `onEnd`: a swipe to the right by distance or speed means "left"
      (and wins), one to the left means "right", anything else is ignored. */
  function ClassifySwipe(translationX: real, velocityX: real): (r: Option<Direction>)
    ensures r == Some(Left) <==> translationX > SwipeThreshold || velocityX > VelocityThreshold
    ensures r == Some(Right) <==>
      !(translationX > SwipeThreshold || velocityX > VelocityThreshold) &&
      (translationX < -SwipeThreshold || velocityX < -VelocityThreshold)
  {
    if translationX > SwipeThreshold || velocityX > VelocityThreshold then Some(Left)
    else if translationX < -SwipeThreshold || velocityX < -VelocityThreshold then Some(Right)
    else None
  }

  /** Small gestures are ignored the same way in both directions, and a
      "right" swipe mirrored is a "left" one. */
  lemma SwipeMirror(translationX: real, velocityX: real)
    ensures ClassifySwipe(translationX, velocityX).None? <==> ClassifySwipe(-translationX, -velocityX).None?
    ensures ClassifySwipe(translationX, velocityX) == Some(Right) ==> ClassifySwipe(-translationX, -velocityX) == Some(Left)
  {
  }

  /** The whole pan gesture end: classify, then navigate. */
  function OnPanEnd(segments: seq<string>, tabRoutes: seq<string>, translationX: real, velocityX: real): (r: Option<string>)
    ensures ClassifySwipe(translationX, velocityX).None? ==> r.None?
    ensures r.Some? ==> exists k :: 0 <= k < |tabRoutes| && r == Some(TabsPrefix + tabRoutes[k])
    ensures r.Some? ==>
      var current := CurrentTabIndex(segments, tabRoutes);
      var target := if ClassifySwipe(translationX, velocityX) == Some(Left) then current - 1 else current + 1;
      0 <= target < |tabRoutes| && r == Some(TabsPrefix + tabRoutes[target])
  {
    match ClassifySwipe(translationX, velocityX)
    case None => None
    case Some(direction) =>
      var r := NavigateToTab(segments, tabRoutes, direction);
      if r.Some? then NavigationMovesOneTab(segments, tabRoutes, direction); r else r
  }
}
