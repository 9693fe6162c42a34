/**
  The arithmetic of the swipe controller (src/suaip.js): how far the cards are
  translated while a finger drags, how opaque the revealed card becomes, how
  long the release animation lasts, and whether a released gesture snaps back
  or commits. Viewport and card sizes are fixed real parameters; distances are
  exact reals instead of browser doubles.
*/
module Gesture {
  import opened Wrappers

  /** The direction hammer.js reports on `dragend`. `Still` stands both for its
      'none' and for the controller's initial `false`: every branch of the
      controller treats the two alike. */
  datatype Direction = Up | Down | Left | Right | Still

  /** A `translate3d(x px, y px, z px)` transform. */
  datatype Vec3 = Vec3(x: real, y: real, z: real)

  // The constants keep the source's names, which are swapped relative to
  // their values: the "fast" speed is the longer duration.
  const AnimationSpeedFast: nat := 200
  const AnimationSpeedSlow: nat := 100
  const DragVelocityBoundary: real := 2.0

  /** Duration in ms of the CSS transition started on drag end. A release
      faster than the boundary gets the shorter animation. */
  function AnimationSpeed(velocityY: real): (ms: nat)
    ensures velocityY > DragVelocityBoundary ==> ms == 100
    ensures velocityY <= DragVelocityBoundary ==> ms == 200
  {
    if velocityY > DragVelocityBoundary then AnimationSpeedSlow else AnimationSpeedFast
  }

  /** A quicker release never gets a longer animation. */
  lemma AnimationSpeedAntitone(v1: real, v2: real)
    requires v1 <= v2
    ensures AnimationSpeed(v2) <= AnimationSpeed(v1)
  {
  }

  /** JavaScript's Math.round: the nearest integer, halves rounded up. */
  function Round(x: real): (n: int)
    ensures x - 0.5 < n as real <= x + 0.5
  {
    (x + 0.5).Floor
  }

  lemma RoundMonotone(x: real, y: real)
    requires x <= y
    ensures Round(x) <= Round(y)
  {
  }

  /** The opacity percentage written on the revealed card: the drag progress
      in percent, but never less than 30. */
  function OpacityPercent(progress: real): (p: int)
    ensures p >= 30 && p >= Round(progress * 100.0)
    ensures p == 30 || p == Round(progress * 100.0)
  {
    var percent := Round(progress * 100.0);
    if percent < 30 then 30 else percent
  }

  /** The further the drag, the more opaque the revealed card. */
  lemma {:induction false} OpacityMonotone(progress1: real, progress2: real)
    requires progress1 <= progress2
    ensures OpacityPercent(progress1) <= OpacityPercent(progress2)
  {
    RoundMonotone(progress1 * 100.0, progress2 * 100.0);
  }

  /** Within one card extent of travel the percentage stays in 30..100. */
  lemma {:induction false} OpacityWithinCard(progress: real)
    requires 0.0 <= progress <= 1.0
    ensures 30 <= OpacityPercent(progress) <= 100
  {
    RoundMonotone(progress * 100.0, 100.0);
  }

  /** Number of decimal digits of `n`. */
  function Digits(n: nat): (k: nat)
    ensures k >= 1
  {
    if n < 10 then 1 else 1 + Digits(n / 10)
  }

  function Pow10(k: nat): (p: nat)
    ensures p >= 1
  {
    if k == 0 then 1 else 10 * Pow10(k - 1)
  }

  lemma {:induction false} BelowPow10Digits(n: nat)
    ensures n < Pow10(Digits(n))
  {
    if n >= 10 {
      BelowPow10Digits(n / 10);
    }
  }

  lemma QuotientBelowOne(a: real, b: real)
    requires 0.0 <= a < b
    ensures 0.0 <= a / b < 1.0
  {
    assert a / b * b == a;
  }

  /** The opacity a browser reads from the string `'.' + p` that the drag
      handlers write for percentage `p`: the digits of `p` after the decimal
      point. */
  function WrittenOpacity(p: nat): (o: real)
    ensures 0.0 <= o < 1.0
  {
    BelowPow10Digits(p);
    QuotientBelowOne(p as real, Pow10(Digits(p)) as real);
    p as real / Pow10(Digits(p)) as real
  }

  /** The opacity a percentage stands for, saturating at fully opaque. */
  function IntendedOpacity(p: int): (o: real)
    ensures p <= 100 ==> o == p as real / 100.0
    ensures p >= 100 ==> o == 1.0
  {
    if p >= 100 then 1.0 else p as real / 100.0
  }

  /** Two-digit percentages, 30 to 99, are rendered as intended... */
  lemma {:induction false} WrittenOpacityTwoDigits(p: nat)
    requires 30 <= p <= 99
    ensures WrittenOpacity(p) == IntendedOpacity(p)
  {
    assert Digits(p / 10) == 1;
    assert Pow10(2) == 100;
  }

  /** ...but 100 percent is rendered as `.100`, an opacity of one tenth: the
      revealed card fades out just as it should become fully opaque. */
  lemma WrittenOpacityDropsAtHundred()
    ensures WrittenOpacity(99) == 0.99
    ensures WrittenOpacity(100) == 0.1 < IntendedOpacity(100)
  {
    WrittenOpacityTwoDigits(99);
    assert Digits(100) == 3 by {
      assert Digits(10) == 2;
    }
    assert Pow10(3) == 1000 by {
      assert Pow10(2) == 100;
    }
  }

  /** The intended reading keeps the revealed card between 30% and fully
      opaque and never fades it as the drag goes further. */
  lemma {:induction false} IntendedOpacityOfDrag(progress1: real, progress2: real)
    requires progress1 <= progress2
    ensures 0.3 <= IntendedOpacity(OpacityPercent(progress1)) <= 1.0
    ensures IntendedOpacity(OpacityPercent(progress1)) <= IntendedOpacity(OpacityPercent(progress2))
  {
    OpacityMonotone(progress1, progress2);
  }

  /** What one directional drag event writes: the active card's translation,
      the translation of the card being revealed, and that card's opacity
      percentage. */
  datatype Frame = Frame(active: Vec3, revealed: Vec3, opacity: int)

  /** `dragup`: the active card follows the finger up from the accumulated
      offset, and the after card stays glued to its bottom edge. */
  function DragUpFrame(delta: real, distance: real, height: real): (f: Frame)
    requires height > 0.0
    ensures f.active == Vec3(0.0, delta - distance, 0.0)
    ensures f.revealed == Vec3(0.0, f.active.y + height, 0.0)
    ensures f.opacity >= 30
    ensures f.opacity == OpacityPercent((distance - delta) / height)
  {
    var y := delta - distance;
    Frame(Vec3(0.0, y, 0.0), Vec3(0.0, height - -y, 0.0), OpacityPercent(-y / height))
  }

  /** `dragdown`: the active card follows the finger down, and the before card
      stays glued to its top edge. */
  function DragDownFrame(delta: real, distance: real, height: real): (f: Frame)
    requires height > 0.0
    ensures f.active == Vec3(0.0, delta + distance, 0.0)
    ensures f.revealed == Vec3(0.0, f.active.y - height, 0.0)
    ensures f.opacity >= 30
    ensures f.opacity == OpacityPercent((distance + delta) / height)
  {
    var y := delta + distance;
    Frame(Vec3(0.0, y, 0.0), Vec3(0.0, -(height - (distance + delta)), 0.0), OpacityPercent(y / height))
  }

  /** `dragleft`: the active card moves left at its current vertical offset,
      and the right card, at the top, stays one card width to its right. */
  function DragLeftFrame(delta: real, distance: real, width: real): (f: Frame)
    requires width > 0.0
    ensures f.active == Vec3(-distance, delta, 0.0)
    ensures f.revealed == Vec3(f.active.x + width, 0.0, 0.0)
    ensures f.opacity >= 30
    ensures f.opacity == OpacityPercent(distance / width)
  {
    Frame(Vec3(-distance, delta, 0.0), Vec3(width - distance, 0.0, 0.0), OpacityPercent(distance / width))
  }

  /** `dragright`: the mirror image of `dragleft`, revealing the left card one
      card width to the left of the active one. */
  function DragRightFrame(delta: real, distance: real, width: real): (f: Frame)
    requires width > 0.0
    ensures f.active == Vec3(distance, delta, 0.0)
    ensures f.revealed == Vec3(f.active.x - width, 0.0, 0.0)
    ensures f.opacity >= 30
    ensures f.opacity == OpacityPercent(distance / width)
  {
    Frame(Vec3(distance, delta, 0.0), Vec3(-(width - distance), 0.0, 0.0), OpacityPercent(distance / width))
  }

  /** How a released gesture ends. `SnapBack` re-arms the drag listeners and
      may move the active card to its resting place; `Commit` waits for the
      transition to end and then rotates the roles. Both carry the new value of
      the vertical accumulator. */
  datatype Settle = SnapBack(delta: real, moveActive: Option<Vec3>) | Commit(delta: real)

  function Max(a: real, b: real): real { if a < b then b else a }
  function Min(a: real, b: real): real { if a < b then a else b }

  /** Releasing an upward drag. The accumulator first moves up by the gesture
      distance. The card is discarded once the travelled distance reaches the
      card height minus two thirds of the viewport; otherwise it rests where it
      is, except that it is pulled back so that its bottom edge never rises
      above the bottom of the viewport. */
  function SettleUp(delta: real, distance: real, height: real, viewHeight: real): (s: Settle)
    ensures s.Commit? <==> distance - delta >= height - viewHeight * 2.0 / 3.0
    ensures s.Commit? ==> s.delta == 0.0
    ensures s.SnapBack? ==> s.delta == Max(delta - distance, viewHeight - height)
    ensures s.SnapBack? ==> -s.delta <= height - viewHeight
    ensures s.SnapBack? ==>
      s.moveActive == (if delta - distance < viewHeight - height then Some(Vec3(0.0, s.delta, 0.0)) else None)
  {
    var accumulated := delta - distance;
    if -accumulated < height - viewHeight / 6.0 * 4.0 then
      if -accumulated + viewHeight > height then
        SnapBack(-(height - viewHeight), Some(Vec3(0.0, -(height - viewHeight), 0.0)))
      else
        SnapBack(accumulated, None)
    else
      Commit(0.0)
  }

  /** Releasing a downward drag. The accumulator moves down by the gesture
      distance; the card is discarded once it reaches a third of the viewport,
      and otherwise it never rests below the top (a positive offset is reset
      to zero and the card moved back to the origin). */
  function SettleDown(delta: real, distance: real, viewHeight: real): (s: Settle)
    ensures s.Commit? <==> delta + distance >= viewHeight / 3.0
    ensures s.Commit? ==> s.delta == 0.0
    ensures s.SnapBack? ==> s.delta == Min(delta + distance, 0.0) && s.delta <= 0.0
    ensures s.SnapBack? ==>
      s.moveActive == (if delta + distance > 0.0 then Some(Vec3(0.0, 0.0, 0.0)) else None)
  {
    var accumulated := delta + distance;
    if accumulated < viewHeight / 6.0 * 2.0 then
      if accumulated > 0.0 then
        SnapBack(0.0, Some(Vec3(0.0, 0.0, 0.0)))
      else
        SnapBack(accumulated, None)
    else
      Commit(0.0)
  }

  /** Releasing a horizontal drag (left and right share the rule). The raw
      gesture distance, not the accumulator, is compared with a third of the
      viewport width; the accumulator is kept either way, and a snap-back puts
      the card back at its accumulated vertical offset. */
  function SettleSide(delta: real, distance: real, viewWidth: real): (s: Settle)
    ensures s.Commit? <==> distance >= viewWidth / 3.0
    ensures s.delta == delta
    ensures s.SnapBack? ==> s.moveActive == Some(Vec3(0.0, delta, 0.0))
  {
    if distance < viewWidth / 3.0 then
      SnapBack(delta, Some(Vec3(0.0, delta, 0.0)))
    else
      Commit(delta)
  }

  /** The completion rule `_dragEnd` dispatches to; `None` when the direction
      is none of the four and no completion handler runs. */
  function Settlement(dir: Direction, delta: real, distance: real,
                      height: real, viewHeight: real, viewWidth: real): (s: Option<Settle>)
    ensures s.None? <==> dir == Still
    ensures dir == Up ==> s == Some(SettleUp(delta, distance, height, viewHeight))
    ensures dir == Down ==> s == Some(SettleDown(delta, distance, viewHeight))
    ensures dir == Left || dir == Right ==> s == Some(SettleSide(delta, distance, viewWidth))
  {
    match dir
    case Up => Some(SettleUp(delta, distance, height, viewHeight))
    case Down => Some(SettleDown(delta, distance, viewHeight))
    case Left => Some(SettleSide(delta, distance, viewWidth))
    case Right => Some(SettleSide(delta, distance, viewWidth))
    case Still => None
  }

  /** After an upward snap-back the card is at rest: releasing again without
      moving snaps back to the same offset and moves nothing. */
  lemma {:induction false} SettleUpRests(delta: real, distance: real, height: real, viewHeight: real)
    requires viewHeight > 0.0
    requires SettleUp(delta, distance, height, viewHeight).SnapBack?
    ensures var rest := SettleUp(delta, distance, height, viewHeight).delta;
      SettleUp(rest, 0.0, height, viewHeight) == SnapBack(rest, None)
  {
  }

  /** After a downward snap-back the card is at rest in the same sense. */
  lemma {:induction false} SettleDownRests(delta: real, distance: real, viewHeight: real)
    requires viewHeight > 0.0
    requires SettleDown(delta, distance, viewHeight).SnapBack?
    ensures var rest := SettleDown(delta, distance, viewHeight).delta;
      SettleDown(rest, 0.0, viewHeight) == SnapBack(rest, None)
  {
  }

  /** A longer release in the same direction commits whenever a shorter one does. */
  lemma CommitMonotone(dir: Direction, delta: real, d1: real, d2: real,
                       height: real, viewHeight: real, viewWidth: real)
    requires d1 <= d2
    requires Settlement(dir, delta, d1, height, viewHeight, viewWidth).Some?
    requires Settlement(dir, delta, d1, height, viewHeight, viewWidth).value.Commit?
    ensures Settlement(dir, delta, d2, height, viewHeight, viewWidth).Some?
    ensures Settlement(dir, delta, d2, height, viewHeight, viewWidth).value.Commit?
  {
  }

  /** Card 600 high in a 900-high viewport: the threshold is 600 - 600 = 0, so
      a 100 upward drag from rest commits. */
  lemma ScenarioUpCommits()
    ensures SettleUp(0.0, 100.0, 600.0, 900.0) == Commit(0.0)
  {
  }

  /** Same viewport, a 50 downward drag: 50 < 300, so the card snaps back to
      the origin. */
  lemma ScenarioDownSnapsBack()
    ensures SettleDown(0.0, 50.0, 900.0) == SnapBack(0.0, Some(Vec3(0.0, 0.0, 0.0)))
  {
  }

  /** A 360-wide viewport, an 80 leftward drag: 80 < 120, so the card snaps
      back to its last vertical offset. */
  lemma ScenarioLeftSnapsBack(delta: real)
    ensures SettleSide(delta, 80.0, 360.0) == SnapBack(delta, Some(Vec3(0.0, delta, 0.0)))
  {
  }
}
