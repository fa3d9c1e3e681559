/** A run of the container: the sequence of calls the framework makes into it, one
    per touch event, each answered with a boolean (the intercept decision, or the
    touch handler's "consumed"). */
module TouchTrace {
  import opened Gesture
  import opened DragCallback
  import opened VerticalDragList

  datatype Call =
    | InterceptTouchEvent(ev: Event, canChildScrollUp: bool)
    | TouchEvent(callback: HelperCallback)

  /** The one kind of call that may change the menu state. */
  predicate IsRelease(c: Call)
  {
    c.TouchEvent? && c.callback.Released?
  }

  predicate NoRelease(calls: seq<Call>)
  {
    forall i :: 0 <= i < |calls| ==> !IsRelease(calls[i])
  }

  datatype Step = Step(state: State, reply: bool)

  function Apply(s: State, c: Call): Step
  {
    match c
    case InterceptTouchEvent(ev, canChildScrollUp) =>
      var r := Intercept(s, ev, canChildScrollUp); Step(r.state, r.intercept)
    case TouchEvent(callback) =>
      var r := OnTouchEvent(s, callback); Step(r.state, r.consumed)
  }

  datatype Trace = Trace(final: State, replies: seq<bool>)

  /** The calls processed in order, collecting one reply per call. */
  function Run(s: State, calls: seq<Call>): (t: Trace)
    ensures |t.replies| == |calls|
    ensures t.final.menuHeight == s.menuHeight
    decreases |calls|
  {
    if |calls| == 0 then Trace(s, [])
    else
      var step := Apply(s, calls[0]);
      var rest := Run(step.state, calls[1..]);
      Trace(rest.final, [step.reply] + rest.replies)
  }

  /** A run that starts with the list inside its band keeps it there. */
  lemma {:induction false} RunPreservesValid(s: State, calls: seq<Call>)
    requires Valid(s)
    ensures Valid(Run(s, calls).final)
    decreases |calls|
  {
    if |calls| > 0 {
      RunPreservesValid(Apply(s, calls[0]).state, calls[1..]);
    }
  }

  /** Neither the intercept decision nor a drag or an empty callback touches the menu
      state: without a release it is what it was. */
  lemma {:induction false} MenuStateChangesOnlyOnRelease(s: State, calls: seq<Call>)
    requires NoRelease(calls)
    ensures Run(s, calls).final.menuOpen == s.menuOpen
    decreases |calls|
  {
    if |calls| > 0 {
      assert !IsRelease(calls[0]);
      MenuStateChangesOnlyOnRelease(Apply(s, calls[0]).state, calls[1..]);
    }
  }

  /** The touch handler claims every event it is given. */
  lemma {:induction false} TouchEventsAlwaysConsumed(s: State, calls: seq<Call>)
    ensures forall i :: 0 <= i < |calls| && calls[i].TouchEvent? ==> Run(s, calls).replies[i]
    decreases |calls|
  {
    if |calls| > 0 {
      var step := Apply(s, calls[0]);
      TouchEventsAlwaysConsumed(step.state, calls[1..]);
      forall i | 0 <= i < |calls| && calls[i].TouchEvent?
        ensures Run(s, calls).replies[i]
      {
        if i > 0 {
          assert calls[1..][i - 1] == calls[i];
        }
      }
    }
  }

  /** From an open menu, until a release closes it, the container answers `true` to
      every call: every event is intercepted whatever its action, coordinate or the
      list's scroll position. */
  lemma {:induction false} OpenMenuOwnsEveryEvent(s: State, calls: seq<Call>)
    requires s.menuOpen
    requires NoRelease(calls)
    ensures forall i :: 0 <= i < |calls| ==> Run(s, calls).replies[i]
    decreases |calls|
  {
    if |calls| > 0 {
      assert !IsRelease(calls[0]);
      var step := Apply(s, calls[0]);
      assert step.reply && step.state.menuOpen;
      assert NoRelease(calls[1..]) by {
        forall j | 0 <= j < |calls[1..]| ensures !IsRelease(calls[1..][j]) {
          assert calls[1..][j] == calls[j + 1];
        }
      }
      OpenMenuOwnsEveryEvent(step.state, calls[1..]);
    }
  }

  /** All intercept queries in a run report that the list can still scroll up. */
  predicate ListAlwaysScrollable(calls: seq<Call>)
  {
    forall i :: 0 <= i < |calls| && calls[i].InterceptTouchEvent? ==> calls[i].canChildScrollUp
  }

  /** With the menu closed and a list that can still scroll up, no intercept query
      in a run without release is answered `true`: the list keeps scrolling. */
  lemma {:induction false} ScrollableListNeverLosesGesture(s: State, calls: seq<Call>)
    requires !s.menuOpen
    requires NoRelease(calls)
    requires ListAlwaysScrollable(calls)
    ensures forall i :: 0 <= i < |calls| && calls[i].InterceptTouchEvent? ==> !Run(s, calls).replies[i]
    decreases |calls|
  {
    if |calls| > 0 {
      assert !IsRelease(calls[0]);
      var step := Apply(s, calls[0]);
      assert !step.state.menuOpen;
      assert calls[0].InterceptTouchEvent? ==> !step.reply;
      assert NoRelease(calls[1..]) && ListAlwaysScrollable(calls[1..]) by {
        forall j | 0 <= j < |calls[1..]|
          ensures !IsRelease(calls[1..][j])
          ensures calls[1..][j].InterceptTouchEvent? ==> calls[1..][j].canChildScrollUp
        {
          assert calls[1..][j] == calls[j + 1];
        }
      }
      ScrollableListNeverLosesGesture(step.state, calls[1..]);
      forall i | 0 <= i < |calls| && calls[i].InterceptTouchEvent?
        ensures !Run(s, calls).replies[i]
      {
        if i > 0 {
          assert calls[1..][i - 1] == calls[i];
        }
      }
    }
  }

  /** The event loop: the calls dispatched one at a time, as the framework does. */
  method Replay(s: State, calls: seq<Call>) returns (final: State, replies: seq<bool>)
    ensures Trace(final, replies) == Run(s, calls)
    ensures |replies| == |calls|
    ensures Valid(s) ==> Valid(final)
  {
    final := s;
    replies := [];
    var i := 0;
    while i < |calls|
      invariant 0 <= i <= |calls|
      invariant Valid(s) ==> Valid(final)
      invariant final.menuHeight == s.menuHeight
      invariant Run(s, calls) == Trace(Run(final, calls[i..]).final, replies + Run(final, calls[i..]).replies)
      decreases |calls| - i
    {
      var step := Apply(final, calls[i]);
      assert calls[i..][1..] == calls[i + 1..];
      replies := replies + [step.reply];
      final := step.state;
      i := i + 1;
    }
    assert calls[i..] == [];
  }

  /** Menu height 300, list at its top: down at 100, move to 250, the helper drags
      the list to 150, release. Half the menu height does not open it. */
  lemma ScenarioReleaseAtMidpointCloses()
    ensures Run(State(false, 0, 300, 0), [
              InterceptTouchEvent(Event(Down, 100), false),
              InterceptTouchEvent(Event(Move, 250), false),
              TouchEvent(PositionProposed(150)),
              TouchEvent(Released(0.0, 0.0))])
         == Trace(State(false, 100, 300, 0), [false, true, true, true])
  {
  }

  /** Same start, move to 400: the proposed 450 is clamped to 300, and the release
      opens the menu. */
  lemma ScenarioReleasePastMidpointOpens()
    ensures Run(State(false, 0, 300, 0), [
              InterceptTouchEvent(Event(Down, 100), false),
              InterceptTouchEvent(Event(Move, 400), false),
              TouchEvent(PositionProposed(450)),
              TouchEvent(Released(0.0, 0.0))])
         == Trace(State(true, 100, 300, 300), [false, true, true, true])
  {
  }

  /** Menu open: a down and a move are intercepted even though the list could scroll. */
  lemma ScenarioOpenMenuInterceptsScrollableList()
    ensures Run(State(true, 0, 300, 300), [
              InterceptTouchEvent(Event(Down, 100), true),
              InterceptTouchEvent(Event(Move, 250), true)])
         == Trace(State(true, 0, 300, 300), [true, true])
  {
  }

  /** Menu closed, list not at its top: a 150-pixel downward drag is left to the list
      and the list's offset does not move. */
  lemma ScenarioScrollableListKeepsDrag()
    ensures Run(State(false, 0, 300, 0), [
              InterceptTouchEvent(Event(Down, 100), true),
              InterceptTouchEvent(Event(Move, 250), true)])
         == Trace(State(false, 100, 300, 0), [false, false])
  {
  }
}
