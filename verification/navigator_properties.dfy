/** Properties of the scene navigator: what each input does, the guard while
    navigating, the timers' single-slot discipline, the one-step swipe, and the
    growth of the loaded set. */
module NavigatorProperties {
  import opened Optional
  import opened HomeScenes
  import opened Navigator

  /** The first render is a valid state at home with only home loaded. */
  lemma InitialState()
    ensures Valid(Initial)
    ensures Initial.active == 0 && Scenes[Initial.active] == Home
    ensures !Initial.navigating && !Initial.glitching && Initial.loaded == {0}
  {
    SceneLayout();
  }

  /** While navigating, keys, wheel, swipes and dot clicks change nothing. */
  lemma IgnoredWhileNavigating(s: State, e: Event)
    requires Valid(s) && s.navigating
    requires e.KeyDown? || e.Wheel? || e.TouchMove? || e.DotClick?
    ensures Step(s, e) == s
  {
  }

  /** The keyboard map, when not navigating. */
  lemma KeyMap(s: State, key: string)
    requires Valid(s) && !s.navigating
    ensures key in ForwardKeys ==> Step(s, KeyDown(key)).active == Clamp(s.active + 1)
    ensures key in BackwardKeys ==> Step(s, KeyDown(key)).active == Clamp(s.active - 1)
    ensures key == "Home" ==> Step(s, KeyDown(key)).active == 0
    ensures key == "End" ==> Step(s, KeyDown(key)).active == N - 1
    ensures key !in ForwardKeys && key !in BackwardKeys && key != "Home" && key != "End" ==>
      Step(s, KeyDown(key)) == s
  {
    assert "Home" !in ForwardKeys && "Home" !in BackwardKeys;
    assert "End" !in ForwardKeys && "End" !in BackwardKeys;
    assert forall k :: k in ForwardKeys ==> k !in BackwardKeys;
  }

  /** A wheel event moves one scene in the direction of `deltaY` once it
      reaches the threshold and nothing is in flight; otherwise it is ignored. */
  lemma WheelMap(s: State, deltaY: int)
    requires Valid(s)
    ensures s.navigating || Abs(deltaY) < WheelThreshold ==> Step(s, Wheel(deltaY)) == s
    ensures !s.navigating && deltaY >= WheelThreshold ==>
      Step(s, Wheel(deltaY)).active == Clamp(s.active + 1)
    ensures !s.navigating && deltaY <= -WheelThreshold ==>
      Step(s, Wheel(deltaY)).active == Clamp(s.active - 1)
  {
  }

  /** A dot click goes to the clicked scene unless a transition is in flight. */
  lemma DotClickMap(s: State, index: int)
    requires Valid(s)
    ensures s.navigating ==> Step(s, DotClick(index)) == s
    ensures !s.navigating ==> Step(s, DotClick(index)).active == Clamp(index)
  {
  }

  /** Pressing "up" at home, with nothing in flight, leaves the state as it
      is: the clamped target is the current scene. */
  lemma UpAtHome(s: State)
    requires Valid(s) && !s.navigating && s.active == 0
    ensures Step(s, KeyDown("ArrowUp")) == s
  {
    assert "ArrowUp" !in ForwardKeys;
    assert "ArrowUp" in BackwardKeys;
  }

  /** Pressing "down" at the vita, with nothing in flight, leaves the state
      as it is. */
  lemma DownAtVita(s: State)
    requires Valid(s) && !s.navigating && s.active == N - 1
    ensures Step(s, KeyDown("ArrowDown")) == s
  {
    assert "ArrowDown" in ForwardKeys;
  }

  /** A real transition raises both flags, and the timers it replaced are
      dead: their callbacks can no longer change anything. */
  lemma TransitionReplacesTimers(s: State, index: int)
    requires Valid(s) && Clamp(index) != s.active
    ensures var r := GoToIndex(s, index);
      && r.navigating && r.glitching
      && (s.navTimer.Some? ==> HandleTimer(r, s.navTimer.value.id) == r)
      && (s.glitchTimer.Some? ==> HandleTimer(r, s.glitchTimer.value.id) == r)
  {
  }

  /** The navigation timer clears only the navigating flag; the glitch timer
      only the glitching flag. */
  lemma TimerExpiry(s: State)
    requires Valid(s)
    ensures s.navTimer.Some? ==>
      Step(s, TimerFired(s.navTimer.value.id)) == s.(navigating := false, navTimer := None)
    ensures s.glitchTimer.Some? ==>
      Step(s, TimerFired(s.glitchTimer.value.id)) == s.(glitching := false, glitchTimer := None)
  {
  }

  /** Touch start records the finger only for a single touch; end and
      cancel forget it. */
  lemma TouchBookkeeping(s: State, touches: seq<int>)
    requires Valid(s)
    ensures |touches| == 1 ==> Step(s, TouchStart(touches)) == s.(touchStart := Some(touches[0]))
    ensures |touches| != 1 ==> Step(s, TouchStart(touches)) == s
    ensures Step(s, TouchEnd) == s.(touchStart := None)
    ensures Step(s, TouchCancel) == s.(touchStart := None)
  {
  }

  /** A swipe moves once its distance reaches the threshold, in the direction
      of the finger's travel up the screen, and ends the swipe. */
  lemma SwipeMap(s: State, y: int)
    requires Valid(s) && !s.navigating && s.touchStart.Some?
    ensures Dist(s.touchStart.value, y) < SwipeThreshold ==> Step(s, TouchMove([y])) == s
    ensures s.touchStart.value - y >= SwipeThreshold ==>
      Step(s, TouchMove([y])).active == Clamp(s.active + 1)
      && Step(s, TouchMove([y])).touchStart.None?
    ensures y - s.touchStart.value >= SwipeThreshold ==>
      Step(s, TouchMove([y])).active == Clamp(s.active - 1)
      && Step(s, TouchMove([y])).touchStart.None?
  {
  }

  /** The events that can arrive while one finger stays on the screen:
      touch moves and timer callbacks. A swipe ends with `TouchEnd` or
      `TouchCancel`; the next swipe begins with `TouchStart`. */
  predicate DuringSwipe(events: seq<Event>) {
    forall i :: 0 <= i < |events| ==> events[i].TouchMove? || events[i].TimerFired?
  }

  /** Without a start point, touch moves and timer callbacks neither move nor
      set a start point. */
  lemma {:induction false} NoStartNoMove(s: State, events: seq<Event>)
    requires Valid(s) && s.touchStart.None? && DuringSwipe(events)
    ensures Run(s, events).active == s.active && Run(s, events).touchStart.None?
    decreases |events|
  {
    if |events| > 0 {
      var t := Step(s, events[0]);
      assert t.active == s.active && t.touchStart.None?;
      NoStartNoMove(t, events[1..]);
    }
  }

  /** Without a start point, any run of touch moves is the identity. */
  lemma {:induction false} MovesWithoutStart(s: State, moves: seq<Event>)
    requires Valid(s) && s.touchStart.None?
    requires forall i :: 0 <= i < |moves| ==> moves[i].TouchMove?
    ensures Run(s, moves) == s
    decreases |moves|
  {
    if |moves| > 0 {
      assert Step(s, moves[0]) == s;
      MovesWithoutStart(s, moves[1..]);
    }
  }

  /** However many touch moves follow, and however the transition's timers
      run out in between, one swipe moves at most one scene: the step that
      moves also forgets the start point. */
  lemma {:induction false} OneStepPerSwipe(s: State, events: seq<Event>)
    requires Valid(s) && DuringSwipe(events)
    ensures Dist(Run(s, events).active, s.active) <= 1
    decreases |events|
  {
    if |events| > 0 {
      var t := Step(s, events[0]);
      if t.active != s.active {
        assert t.touchStart.None?;
        NoStartNoMove(t, events[1..]);
      } else {
        OneStepPerSwipe(t, events[1..]);
      }
    }
  }

  /** Each render keeps every loaded scene and the active one is loaded;
      neighbours join only with a newly loaded active scene. */
  lemma LoadedGrowth(s: State, e: Event)
    requires Valid(s)
    ensures s.loaded <= Step(s, e).loaded
    ensures Step(s, e).active in Step(s, e).loaded
    ensures Step(s, e).active !in s.loaded ==>
      forall i :: 0 <= i < N && Dist(i, Step(s, e).active) <= 1 ==> i in Step(s, e).loaded
    ensures Step(s, e).active in s.loaded ==> Step(s, e).loaded == s.loaded
  {
  }

  lemma FirstDownLoadsNeighbours()
    ensures Step(Initial, KeyDown("ArrowDown"))
         == State(1, true, true, Some(Timer(2, NavDelay)), Some(Timer(1, GlitchDelay)), 3, None, {0, 1, 2})
  {
    SceneLayout();
    assert "ArrowDown" in ForwardKeys;
    assert 1 !in {0};
    assert LoadScenes({0}, 1) == {0} + {1} + {0} + {2};
  }

  lemma TimersRunOut()
    ensures var s1 := State(1, true, true, Some(Timer(2, NavDelay)), Some(Timer(1, GlitchDelay)), 3, None, {0, 1, 2});
      Valid(s1) && Valid(Step(s1, TimerFired(2)))
      && Step(Step(s1, TimerFired(2)), TimerFired(1)) == State(1, false, false, None, None, 3, None, {0, 1, 2})
  {
    SceneLayout();
    var s1 := State(1, true, true, Some(Timer(2, NavDelay)), Some(Timer(1, GlitchDelay)), 3, None, {0, 1, 2});
    var s2 := State(1, false, true, None, Some(Timer(1, GlitchDelay)), 3, None, {0, 1, 2});
    assert Valid(s1);
    assert Handle(s1, TimerFired(2)) == s2;
    assert Step(s1, TimerFired(2)) == s2;
    assert Handle(s2, TimerFired(1)) == s2.(glitching := false, glitchTimer := None);
  }

  lemma SecondDownKeepsLoaded()
    ensures var s3 := State(1, false, false, None, None, 3, None, {0, 1, 2});
      Valid(s3) && Step(s3, KeyDown("ArrowDown")).active == 2
      && Step(s3, KeyDown("ArrowDown")).loaded == {0, 1, 2}
  {
    SceneLayout();
    assert "ArrowDown" in ForwardKeys;
  }

  /** A scene reached while already loaded does not pull in its neighbours:
      two "down" presses from home, with both timers run out in between,
      leave scene 3 unloaded while scene 2 is shown. */
  lemma NeighbourNotAlwaysLoaded()
    ensures var s := Run(Initial, [KeyDown("ArrowDown"), TimerFired(2), TimerFired(1),
                                   KeyDown("ArrowDown")]);
      s.active == 2 && 3 !in s.loaded
  {
    FirstDownLoadsNeighbours();
    TimersRunOut();
    SecondDownKeepsLoaded();
    var s1 := State(1, true, true, Some(Timer(2, NavDelay)), Some(Timer(1, GlitchDelay)), 3, None, {0, 1, 2});
    var s2 := Step(s1, TimerFired(2));
    var s3 := State(1, false, false, None, None, 3, None, {0, 1, 2});
    var s4 := Step(s3, KeyDown("ArrowDown"));
    var evs := [KeyDown("ArrowDown"), TimerFired(2), TimerFired(1), KeyDown("ArrowDown")];
    assert Run(Initial, evs) == Run(s1, evs[1..]);
    assert Run(s1, evs[1..]) == Run(s2, evs[2..]);
    assert Run(s2, evs[2..]) == Run(s3, evs[3..]);
    assert Run(s3, evs[3..]) == Run(s4, []);
  }

  /** Waiting out a transition: both pending timers fire. */
  function Settle(s: State): (r: State)
    requires Valid(s)
    ensures Valid(r) && !r.navigating && !r.glitching
    ensures r.active == s.active && r.loaded == s.loaded
  {
    var s1 := if s.navTimer.Some? then Step(s, TimerFired(s.navTimer.value.id)) else s;
    if s1.glitchTimer.Some? then Step(s1, TimerFired(s1.glitchTimer.value.id)) else s1
  }

  /** Pressing "down" `k` times, waiting out each transition. */
  function PressDown(s: State, k: nat): (r: State)
    requires Valid(s)
    ensures Valid(r)
    decreases k
  {
    if k == 0 then s else PressDown(Settle(Step(s, KeyDown("ArrowDown"))), k - 1)
  }

  function Min(a: int, b: int): int {
    if a <= b then a else b
  }

  /** `k` presses of "down" with pauses move `k` scenes, stopping at the
      vita. */
  lemma {:induction false} PressDownMoves(s: State, k: nat)
    requires Valid(s) && !s.navigating
    ensures PressDown(s, k).active == Min(s.active + k, N - 1)
    decreases k
  {
    if k > 0 {
      KeyMap(s, "ArrowDown");
      assert "ArrowDown" in ForwardKeys;
      var t := Settle(Step(s, KeyDown("ArrowDown")));
      assert t.active == Clamp(s.active + 1);
      PressDownMoves(t, k - 1);
    }
  }

  /** From home, six presses of "down" reach the vita. */
  lemma SixDownsReachVita()
    ensures Scenes[PressDown(Initial, 6).active] == Vita
  {
    SceneLayout();
    PressDownMoves(Initial, 6);
  }
}
