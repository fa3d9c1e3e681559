/** The three callbacks the container hands to the drag helper: which child may be
    captured, how a proposed vertical position is clamped, and where a released
    child settles. Each is a pure function of the container fields it reads. */
module DragCallback {

  /** Java's `h / 2` on an `int`: division truncating toward zero. */
  function HalfTowardZero(h: int): (r: int)
    ensures 0 <= h ==> 0 <= r && 2 * r <= h <= 2 * r + 1
    ensures h < 0 ==> r <= 0 && 2 * r - 1 <= h <= 2 * r
  {
    if h >= 0 then h / 2 else -((-h) / 2)
  }

  /** Distance between two offsets. */
  function Dist(a: int, b: int): nat
  {
    if a <= b then b - a else a - b
  }

  /** The capture rule: the helper may drag a child only when it is the content
      child the container recorded at inflation. */
  function TryCapture(listView: int, child: int): bool
  {
    child == listView
  }

  /** The vertical clamp: a proposed top offset is pulled into `[0, menuHeight]`,
      first raising negatives to 0, then lowering anything above the menu height. */
  function Clamp(menuHeight: int, top: int): (r: int)
    ensures 0 <= menuHeight ==> 0 <= r <= menuHeight
    ensures 0 <= menuHeight ==> (r == top <==> 0 <= top <= menuHeight)
    ensures 0 <= menuHeight ==>
      forall v :: 0 <= v <= menuHeight ==> Dist(r, top) <= Dist(v, top)
    ensures menuHeight < 0 ==> r == menuHeight
  {
    var raised := if top < 0 then 0 else top;
    if raised > menuHeight then menuHeight else raised
  }

  lemma ClampIdempotent(menuHeight: int, top: int)
    ensures Clamp(menuHeight, Clamp(menuHeight, top)) == Clamp(menuHeight, top)
  {
  }

  lemma ClampMonotone(menuHeight: int, a: int, b: int)
    requires a <= b
    ensures Clamp(menuHeight, a) <= Clamp(menuHeight, b)
  {
  }

  /** Where a released child settles, and the menu state that goes with it. */
  datatype Settle = Settle(target: int, menuOpen: bool)

  /** The release rule: past half the menu height (Java integer division, strict
      comparison) the content settles at the menu height and the menu is open;
      otherwise it settles at 0 and the menu is closed. The velocities are ignored. */
  function Release(menuHeight: int, top: int, xvel: real, yvel: real): (r: Settle)
    ensures r.target == 0 || r.target == menuHeight
    ensures r.menuOpen ==> r.target == menuHeight
    ensures !r.menuOpen ==> r.target == 0
    ensures 0 <= menuHeight ==> (r.menuOpen <==> 2 * top > menuHeight)
    ensures 0 < menuHeight ==> (r.menuOpen <==> r.target == menuHeight)
  {
    if top > HalfTowardZero(menuHeight) then Settle(menuHeight, true) else Settle(0, false)
  }

  lemma ReleaseIgnoresVelocity(menuHeight: int, top: int, xvel: real, yvel: real, xvel': real, yvel': real)
    ensures Release(menuHeight, top, xvel, yvel) == Release(menuHeight, top, xvel', yvel')
  {
  }

  /** The midpoint itself closes the menu; one pixel further opens it. */
  lemma ReleaseMidpointBoundary(xvel: real, yvel: real)
    ensures Release(300, 150, xvel, yvel) == Settle(0, false)
    ensures Release(300, 151, xvel, yvel) == Settle(300, true)
    ensures Release(301, 150, xvel, yvel) == Settle(0, false)
    ensures Release(301, 151, xvel, yvel) == Settle(301, true)
  {
  }

  /** A settle target is a legal offset: the clamp leaves it where it is. */
  lemma ReleaseTargetIsClampFixpoint(menuHeight: int, top: int, xvel: real, yvel: real)
    requires 0 <= menuHeight
    ensures Clamp(menuHeight, Release(menuHeight, top, xvel, yvel).target)
         == Release(menuHeight, top, xvel, yvel).target
  {
  }

  /** Releasing again at the settled offset reproduces the same outcome: both end
      states are stable. */
  lemma ReleaseSettledIsStable(menuHeight: int, top: int, xvel: real, yvel: real)
    requires 0 <= top <= menuHeight
    ensures Release(menuHeight, Release(menuHeight, top, xvel, yvel).target, xvel, yvel)
         == Release(menuHeight, top, xvel, yvel)
  {
  }
}
