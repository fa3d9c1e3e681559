/** The container: two stacked children, the menu (child 0) behind and the list
    (child 1) in front, with the list dragged down to reveal the menu. The fields
    the container keeps between calls form `State`; every entry point the framework
    calls is a pure function from a state to a new state and a reply. */
module VerticalDragList {
  import opened Gesture
  import opened DragCallback

  const MenuIndex: nat := 0
  const ContentIndex: nat := 1
  const RequiredChildCount: nat := 2

  /** `menuOpen` is the persistent menu state, `downY` the coordinate of the last
      touch-down seen while closed, `menuHeight` the measured height of the menu
      child and `top` the list child's current top offset. */
  datatype State = State(menuOpen: bool, downY: int, menuHeight: int, top: int)

  /** The list never leaves the band between fully covering and fully revealing the menu. */
  predicate Valid(s: State)
  {
    0 <= s.top <= s.menuHeight
  }

  /** `listView` is the index of the child the capture rule compares against. */
  datatype Container = Container(listView: nat, state: State)

  datatype Inflation = Inflated(container: Container) | WrongChildCount(count: nat)

  /** Inflation with the measured heights of the children, in order: any count other
      than two is a fatal configuration error; otherwise the list is child 1, the menu
      height is child 0's height and the menu starts closed with the list at the top. */
  function Inflate(childHeights: seq<nat>): (r: Inflation)
    ensures r.WrongChildCount? <==> |childHeights| != RequiredChildCount
    ensures r.WrongChildCount? ==> r.count == |childHeights|
    ensures r.Inflated? ==>
      && r.container.listView == ContentIndex
      && r.container.state.menuHeight == childHeights[MenuIndex]
      && !r.container.state.menuOpen
      && r.container.state.top == 0
      && Valid(r.container.state)
  {
    if |childHeights| != RequiredChildCount then WrongChildCount(|childHeights|)
    else Inflated(Container(ContentIndex, State(false, 0, childHeights[MenuIndex], 0)))
  }

  /** Only the list can be captured by the drag helper; the menu never can. */
  lemma CaptureOnlyContent(childHeights: seq<nat>, child: int)
    requires Inflate(childHeights).Inflated?
    ensures TryCapture(Inflate(childHeights).container.listView, child) <==> child == ContentIndex
    ensures !TryCapture(Inflate(childHeights).container.listView, MenuIndex)
  {
  }

  datatype InterceptResult = InterceptResult(state: State, intercept: bool)

  /** The intercept decision. An open menu claims every event. With the menu closed,
      a down records its coordinate and lets the list see the gesture; a move is
      stolen exactly when it goes downward and the list cannot scroll further up;
      anything else is left to the list (the framework's default answer is `false`).
      On a down the helper also sees the event, but its capture attempt changes no
      field of the container. */
  function Intercept(s: State, ev: Event, canChildScrollUp: bool): (r: InterceptResult)
    ensures r.intercept <==>
      s.menuOpen || (ev.action == Move && ev.y - s.downY > 0 && !canChildScrollUp)
    ensures r.state.menuOpen == s.menuOpen
    ensures r.state.menuHeight == s.menuHeight && r.state.top == s.top
    ensures r.state.downY == (if !s.menuOpen && ev.action == Down then ev.y else s.downY)
  {
    if s.menuOpen then InterceptResult(s, true)
    else
      match ev.action
      case Down => InterceptResult(s.(downY := ev.y), false)
      case Move =>
        if ev.y - s.downY > 0 && !canChildScrollUp then InterceptResult(s, true)
        else InterceptResult(s, false)
      case Up => InterceptResult(s, false)
      case Other => InterceptResult(s, false)
  }

  /** While the menu is open, nothing the finger or the list does escapes the container. */
  lemma OpenMenuInterceptsEverything(s: State, ev: Event, canChildScrollUp: bool)
    requires s.menuOpen
    ensures Intercept(s, ev, canChildScrollUp) == InterceptResult(s, true)
  {
  }

  /** With the menu closed, a list that can still scroll up keeps every event. */
  lemma ScrollableListKeepsGesture(s: State, ev: Event)
    requires !s.menuOpen
    ensures !Intercept(s, ev, true).intercept
  {
  }

  /** What the drag helper does with an event the container handles: nothing that
      reaches the container, propose a new top for the captured list (which the
      container clamps before the list moves there), or release it. */
  datatype HelperCallback =
    | NoCallback
    | PositionProposed(proposedTop: int)
    | Released(xvel: real, yvel: real)

  datatype TouchResult = TouchResult(state: State, consumed: bool)

  /** The container's own touch handler: the event goes to the drag helper, whose
      callback is applied, and the event is always consumed. A release settles the
      list at the chosen target; the settle animation is taken as reaching it. */
  function OnTouchEvent(s: State, callback: HelperCallback): (r: TouchResult)
    ensures r.consumed
    ensures r.state.menuHeight == s.menuHeight && r.state.downY == s.downY
    ensures Valid(s) ==> Valid(r.state)
    ensures !callback.NoCallback? && 0 <= s.menuHeight ==> Valid(r.state)
    ensures !callback.Released? ==> r.state.menuOpen == s.menuOpen
    ensures callback.NoCallback? ==> r.state == s
    ensures callback.PositionProposed? && 0 <= s.menuHeight ==>
      (r.state.top == callback.proposedTop <==> 0 <= callback.proposedTop <= s.menuHeight)
    ensures callback.PositionProposed? ==>
      r.state == s.(top := Clamp(s.menuHeight, callback.proposedTop))
    ensures callback.Released? ==>
      var settle := Release(s.menuHeight, s.top, callback.xvel, callback.yvel);
      r.state == s.(top := settle.target, menuOpen := settle.menuOpen)
    ensures callback.Released? && 0 < s.menuHeight ==>
      && (r.state.menuOpen <==> 2 * s.top > s.menuHeight)
      && (r.state.menuOpen <==> r.state.top == s.menuHeight)
      && (!r.state.menuOpen <==> r.state.top == 0)
  {
    match callback
    case NoCallback => TouchResult(s, true)
    case PositionProposed(proposed) => TouchResult(s.(top := Clamp(s.menuHeight, proposed)), true)
    case Released(xvel, yvel) =>
      var settle := Release(s.menuHeight, s.top, xvel, yvel);
      TouchResult(s.(top := settle.target, menuOpen := settle.menuOpen), true)
  }
}
