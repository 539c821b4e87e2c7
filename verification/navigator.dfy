/** The home page's scene navigator: the active scene index, the two flags
    driven by timers (navigating, glitching), the touch start point and the set
    of scenes whose media has been mounted. Every input is an event; a timer
    callback is the event `TimerFired` carrying the timer's id. */
module Navigator {
  import opened Optional
  import opened HomeScenes

  /** Delay of the timer that ends navigation. */
  const NavDelay: nat := 650
  /** Delay of the timer that ends the glitch overlay. */
  const GlitchDelay: nat := 760
  /** Wheel movements smaller than this are ignored. */
  const WheelThreshold: int := 30
  /** Swipes shorter than this do not move. */
  const SwipeThreshold: int := 80

  /** A scheduled `setTimeout` callback: its handle and its delay. */
  datatype Timer = Timer(id: nat, delay: nat)

  /** The component's state and refs. `nextTimerId` stands for the browser's
      supply of fresh timeout handles, which are positive integers. */
  datatype State = State(
    active: nat,
    navigating: bool,
    glitching: bool,
    navTimer: Option<Timer>,
    glitchTimer: Option<Timer>,
    nextTimerId: nat,
    touchStart: Option<int>,
    loaded: set<nat>)

  /** What the first render holds: scene 0, no flags, no timers, `{0}` loaded. */
  const Initial := State(0, false, false, None, None, 1, None, {0})

  datatype Event =
    | KeyDown(key: string)
    | Wheel(deltaY: int)
    | TouchStart(touches: seq<int>)
    | TouchMove(touches: seq<int>)
    | TouchEnd
    | TouchCancel
    | DotClick(index: int)
    | TimerFired(id: nat)

  const ForwardKeys: seq<string> := ["ArrowDown", "ArrowRight", "PageDown", " ", "Enter"]
  const BackwardKeys: seq<string> := ["ArrowUp", "ArrowLeft", "PageUp"]

  function Abs(x: int): nat {
    if x < 0 then -x else x
  }

  /** The distance between two positions. */
  function Dist(a: int, b: int): nat {
    Abs(a - b)
  }

  /** `Math.max(0, Math.min(scenes.length - 1, index))`: the scene index
      nearest to `index`. */
  function Clamp(index: int): (r: nat)
    ensures r < N
    ensures 0 <= index < N ==> r == index
    ensures forall j :: 0 <= j < N ==> Dist(r, index) <= Dist(j, index)
  {
    if index < 0 then 0 else if index > N - 1 then N - 1 else index
  }

  /** What holds between an event and the render that follows it: the
      index is in range, each flag is raised exactly while its timer is
      pending, pending timers have their fixed delays and distinct handles
      already handed out, and the loaded set holds home and in-range indices
      only. */
  predicate Coherent(s: State) {
    && s.active < N
    && s.nextTimerId > 0
    && (s.navigating <==> s.navTimer.Some?)
    && (s.glitching <==> s.glitchTimer.Some?)
    && (s.navTimer.Some? ==>
          s.navTimer.value.delay == NavDelay && 0 < s.navTimer.value.id < s.nextTimerId)
    && (s.glitchTimer.Some? ==>
          s.glitchTimer.value.delay == GlitchDelay && 0 < s.glitchTimer.value.id < s.nextTimerId)
    && (s.navTimer.Some? && s.glitchTimer.Some? ==> s.navTimer.value.id != s.glitchTimer.value.id)
    && 0 in s.loaded
    && (forall i :: i in s.loaded ==> i < N)
  }

  /** The state invariant every rendered state keeps: also the active scene
      is loaded. */
  predicate Valid(s: State) {
    Coherent(s) && s.active in s.loaded
  }

  /** `triggerGlitch`: the glitch flag is raised and its timer, cancelled if
      pending, is scheduled anew. */
  function TriggerGlitch(s: State): (r: State)
    ensures r.glitching && r.glitchTimer == Some(Timer(s.nextTimerId, GlitchDelay))
    ensures r.nextTimerId == s.nextTimerId + 1
    ensures r == s.(glitching := r.glitching, glitchTimer := r.glitchTimer, nextTimerId := r.nextTimerId)
  {
    s.(glitching := true,
       glitchTimer := Some(Timer(s.nextTimerId, GlitchDelay)),
       nextTimerId := s.nextTimerId + 1)
  }

  /** `goToIndex`: move to the clamped target, or do nothing when already
      there. A move raises both flags and replaces both timers by fresh ones;
      this function itself does not look at `navigating`. */
  function GoToIndex(s: State, index: int): (r: State)
    ensures Clamp(index) == s.active ==> r == s
    ensures Clamp(index) != s.active ==>
      && r.active == Clamp(index)
      && r.navigating && r.glitching
      && r.glitchTimer.Some? && r.glitchTimer.value.id >= s.nextTimerId
      && r.navTimer.Some? && r.navTimer.value.id >= s.nextTimerId
      && r.navTimer.value.id != r.glitchTimer.value.id
    ensures r.touchStart == s.touchStart && r.loaded == s.loaded
    ensures Coherent(s) ==> Coherent(r)
  {
    var target := Clamp(index);
    if target == s.active then s
    else
      var g := TriggerGlitch(s);
      g.(navigating := true,
         navTimer := Some(Timer(g.nextTimerId, NavDelay)),
         nextTimerId := g.nextTimerId + 1,
         active := target)
  }

  /** `goToNumericIndex`: the dots' entry point. */
  function GoToNumericIndex(s: State, target: int): (r: State)
    ensures target == s.active ==> r == s
    ensures target != s.active ==> r == GoToIndex(s, target)
  {
    if target == s.active then s else GoToIndex(s, target)
  }

  /** The key handler: ignored while navigating; forward and back keys step
      by one, Home and End jump to the ends. */
  function HandleKey(s: State, key: string): (r: State)
    ensures s.navigating ==> r == s
    ensures r.loaded == s.loaded && r.touchStart == s.touchStart
    ensures Coherent(s) ==> Coherent(r)
  {
    if s.navigating then s
    else if key in ForwardKeys then GoToIndex(s, s.active + 1)
    else if key in BackwardKeys then GoToIndex(s, s.active - 1)
    else if key == "Home" then GoToIndex(s, 0)
    else if key == "End" then GoToIndex(s, N - 1)
    else s
  }

  /** The wheel handler: ignored while navigating or below the threshold,
      otherwise one step in the direction of `deltaY`. */
  function HandleWheel(s: State, deltaY: int): (r: State)
    ensures s.navigating || Abs(deltaY) < WheelThreshold ==> r == s
    ensures Coherent(s) ==> Dist(r.active, s.active) <= 1
    ensures r.loaded == s.loaded && r.touchStart == s.touchStart
    ensures Coherent(s) ==> Coherent(r)
  {
    if s.navigating then s
    else if Abs(deltaY) < WheelThreshold then s
    else GoToIndex(s, s.active + (if deltaY > 0 then 1 else -1))
  }

  /** Records the finger's Y only when exactly one finger touches. */
  function HandleTouchStart(s: State, touches: seq<int>): (r: State)
    ensures |touches| == 1 ==> r == s.(touchStart := Some(touches[0]))
    ensures |touches| != 1 ==> r == s
    ensures r.loaded == s.loaded
    ensures Coherent(s) ==> Coherent(r)
  {
    if |touches| != 1 then s else s.(touchStart := Some(touches[0]))
  }

  /** Steps once the first finger has moved far enough from the start point,
      then forgets the start point so that the swipe cannot step again. */
  function HandleTouchMove(s: State, touches: seq<int>): (r: State)
    ensures s.touchStart.None? || s.navigating ==> r == s
    ensures r.active != s.active ==> r.touchStart.None?
    ensures Coherent(s) ==> Dist(r.active, s.active) <= 1
    ensures r.loaded == s.loaded
    ensures Coherent(s) ==> Coherent(r)
  {
    if s.touchStart.None? || s.navigating then s
    else if |touches| == 0 then s
    else
      var delta := s.touchStart.value - touches[0];
      if Abs(delta) < SwipeThreshold then s
      else GoToIndex(s, s.active + (if delta > 0 then 1 else -1)).(touchStart := None)
  }

  /** The dot handler: ignored while navigating, otherwise the clicked
      scene, clamped. */
  function HandleDotClick(s: State, index: int): (r: State)
    ensures s.navigating ==> r == s
    ensures Coherent(s) && !s.navigating ==> r.active == Clamp(index)
    ensures r.loaded == s.loaded && r.touchStart == s.touchStart
    ensures Coherent(s) ==> Coherent(r)
  {
    if s.navigating then s else GoToNumericIndex(s, index)
  }

  /** A timer callback: the navigation timer clears only the navigating flag,
      the glitch timer only the glitching flag. A cancelled timer never runs,
      so an id that is not pending changes nothing. */
  function HandleTimer(s: State, id: nat): (r: State)
    ensures r.active == s.active && r.touchStart == s.touchStart && r.nextTimerId == s.nextTimerId
    ensures r.navigating ==> s.navigating
    ensures r.glitching ==> s.glitching
    ensures r.loaded == s.loaded
    ensures Coherent(s) ==> Coherent(r)
  {
    if s.navTimer.Some? && s.navTimer.value.id == id then
      s.(navigating := false, navTimer := None)
    else if s.glitchTimer.Some? && s.glitchTimer.value.id == id then
      s.(glitching := false, glitchTimer := None)
    else s
  }

  /** Dispatches an event to its handler. Only keys, wheel, swipes and dot
      clicks move, and none of them while navigating. */
  function Handle(s: State, e: Event): (r: State)
    ensures !(e.KeyDown? || e.Wheel? || e.TouchMove? || e.DotClick?) ==> r.active == s.active
    ensures s.navigating && (e.KeyDown? || e.Wheel? || e.TouchMove? || e.DotClick?) ==> r == s
    ensures r.loaded == s.loaded
    ensures Coherent(s) ==> Coherent(r)
  {
    match e
    case KeyDown(key) => HandleKey(s, key)
    case Wheel(deltaY) => HandleWheel(s, deltaY)
    case TouchStart(touches) => HandleTouchStart(s, touches)
    case TouchMove(touches) => HandleTouchMove(s, touches)
    case TouchEnd => s.(touchStart := None)
    case TouchCancel => s.(touchStart := None)
    case DotClick(index) => HandleDotClick(s, index)
    case TimerFired(id) => HandleTimer(s, id)
  }

  /** The scene indices at distance at most one from `active`. */
  function Neighbourhood(active: nat): (r: set<nat>)
    ensures forall i :: i in r <==> 0 <= i < N && Dist(i, active) <= 1
  {
    set i: nat | i < N && Dist(i, active) <= 1
  }

  /** The neighbourhood of `active` listed the way the effect adds it. */
  lemma NeighbourhoodMembers(active: nat)
    requires active < N
    ensures Neighbourhood(active)
         == {active} + (if active > 0 then {active - 1} else {})
            + (if active < N - 1 then {active + 1} else {})
  {
    var l := {active} + (if active > 0 then {active - 1} else {})
      + (if active < N - 1 then {active + 1} else {});
    forall i: nat
      ensures i in Neighbourhood(active) <==> i in l
    {
      if i in Neighbourhood(active) {
        assert i == active || i == active - 1 || i == active + 1;
      }
    }
  }

  /** The `loadedScenes` updater run when `activeIndex` changes: a scene seen
      for the first time is added together with its in-range neighbours; a
      scene already loaded leaves the set as it is. */
  function LoadScenes(loaded: set<nat>, active: nat): (r: set<nat>)
    requires active < N
    ensures loaded <= r && active in r
    ensures active in loaded ==> r == loaded
    ensures active !in loaded ==> r == loaded + Neighbourhood(active)
  {
    if active in loaded then loaded
    else
      var r := loaded + {active}
        + (if active > 0 then {active - 1} else {})
        + (if active < N - 1 then {active + 1} else {});
      NeighbourhoodMembers(active);
      r
  }

  /** One event followed by the render it causes: the `loadedScenes` effect
      runs when the active index has changed. */
  function Step(s: State, e: Event): (r: State)
    requires Valid(s)
    ensures Valid(r)
    ensures s.loaded <= r.loaded
    ensures r.active != s.active ==> r.loaded == LoadScenes(s.loaded, r.active)
    ensures r.active == s.active ==> r.loaded == s.loaded
  {
    var t := Handle(s, e);
    if t.active != s.active then t.(loaded := LoadScenes(t.loaded, t.active)) else t
  }

  function Run(s: State, events: seq<Event>): (r: State)
    requires Valid(s)
    ensures Valid(r)
    ensures s.loaded <= r.loaded
    decreases |events|
  {
    if |events| == 0 then s else Run(Step(s, events[0]), events[1..])
  }
}
