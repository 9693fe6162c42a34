# Suaip swipe controller in Dafny

Suaip turns five DOM elements into a swipeable card stack. The five cards are
`before`, `active`, `after`, `left` and `right`. Finger drags on the active
card move it and reveal a neighbour. On release, the controller either snaps
the card back or commits. A commit rotates the roles, promoting a neighbour
to `active`. This project models the controller in `src/suaip.js` and proves
what it does to the cards' role classes, their inline styles, the vertical
accumulator `distanceDelta`, and the registration of its listeners.

The project has four modules (plus `Wrappers`, which holds `Option`):

- `Gesture` (`gesture.dfy`) is the arithmetic. It covers the transforms and
  opacity a drag writes, the animation speed chosen on release, and the
  completion rule for each direction: its threshold, its clamps and the new
  accumulator. Sizes and distances are exact `real`s. `Math.round` is
  `Floor(x + 0.5)`.
- `Cards` (`cards.dfy`) is the role bookkeeping. Cards are natural numbers
  and the document is a sequence of cards in document order.
  `getElementsByClassName(c)[0]` is the first card of the document whose
  class list holds `c`. The role map `cardElements` is a `map<Role, Card>`,
  where a missing key means `undefined`. This module also holds the
  rotation `_setCardClasses` performs on a commit.
- `SwipeState` (`state.dfy`) is the controller as a state machine on
  values. `State` is what the module variables and the DOM hold between
  events. Each event is a function from the old state to the new one.
  Three parts of `State` stand for listener registrations:
  - `bound` means the hammer.js drag handlers are registered.
  - `shiftPending` means the one-shot `transitionend` listener is
    registered.
  - `pendingCleanups` counts the 400 ms timers of `_removeAnimations` that
    have not yet fired.

  `Valid` is the invariant: five distinct cards each hold exactly one role
  class, the controller is never both bound and waiting for a transition,
  and a pending transition belongs to an active card marked
  `drag-complete`. Every event keeps it.
- `Controller` (`controller.dfy`) is the controller as the source writes
  it. Class `Swipe` holds the mutable state as fields. Its methods follow
  the handlers statement by statement, including the `for…in` loops over
  the role map and the `forEach` over the body classes. Each method is
  proved to produce exactly the `SwipeState` transition of its event.

An event reaches its handler only while that handler is registered. For
example, a `dragend` that arrives while unbound changes nothing.

Two behaviours of the code differ from what its names and comments suggest.
The model follows the code:

- The doc comments of `ANIMATION_SPEED_FAST = 200` (src/suaip.js:14) and
  `ANIMATION_SPEED_SLOW = 100` (src/suaip.js:20) call 200 ms the speed of a
  fast drag. Line 195 does the opposite: a release with `velocityY > 2`
  gets `ANIMATION_SPEED_SLOW`, 100 ms, and any other release gets 200 ms.
- An up or down snap-back does not restore the card's pre-drag position.
  `distanceDelta` keeps the new accumulated offset, and the card is moved
  only when that offset is clamped at a limit (src/suaip.js:340-342 and
  371-373). Only a left or right snap-back returns the card to its previous
  vertical offset. `SwipeState.SnapBackRests` states where the card rests
  in every direction.

## Model

| member | source | states |
|---|---|---|
| Gesture.AnimationSpeed | src/suaip.js:195-197 | a release with `velocityY > 2` animates for 100 ms and any other release for 200 ms (the constants' names are swapped) |
| Gesture.AnimationSpeedAntitone | src/suaip.js:195-197 | a quicker release never gets a longer animation |
| Gesture.Round | src/suaip.js:144 | `Math.round` gives the integer within half a unit, with halves rounded up |
| Gesture.RoundMonotone | src/suaip.js:144 | rounding preserves order |
| Gesture.OpacityPercent | src/suaip.js:144-145 | the opacity percentage is the rounded progress, raised to 30 when it is smaller, so it is never below 30 |
| Gesture.OpacityMonotone | src/suaip.js:144-145 | a longer drag never lowers the revealed card's opacity percentage |
| Gesture.OpacityWithinCard | src/suaip.js:154-155 | within one card extent of travel the percentage lies in 30..100 |
| Gesture.BelowPow10Digits | src/suaip.js:149 | a number is below 10 to the power of its digit count, so `'.' + p` reads as a fraction below one |
| Gesture.QuotientBelowOne | src/suaip.js:149 | a non-negative number divided by a larger one lies in [0, 1), the step from "below the power of ten" to "a fraction below one" |
| Gesture.WrittenOpacity | src/suaip.js:149 | the opacity a browser reads from `'.' + p` lies in [0, 1) |
| Gesture.WrittenOpacityTwoDigits | src/suaip.js:149 | for percentages 30..99 the written string gives the intended opacity p/100 |
| Gesture.WrittenOpacityDropsAtHundred | src/suaip.js:149 | 99 percent is written as 0.99, but 100 percent is written as 0.1, below the intended full opacity |
| Gesture.IntendedOpacity | src/suaip.js:149 | a percentage up to 100 means p/100, and at 100 or more the card is fully opaque |
| Gesture.IntendedOpacityOfDrag | src/suaip.js:144-149 | read as intended, the revealed card's opacity lies in [0.3, 1] and never falls as the drag grows |
| Gesture.DragUpFrame | src/suaip.js:143-150 | the active card moves to y = delta − d, the after card sits exactly one card height below it, and the opacity is the clamped percentage of −(delta − d)/height |
| Gesture.DragDownFrame | src/suaip.js:175-182 | the active card moves to y = delta + d, the before card sits exactly one card height above it, and the opacity is the clamped percentage of (delta + d)/height |
| Gesture.DragLeftFrame | src/suaip.js:152-159 | the active card moves to x = −d at y = delta, the right card sits at y = 0 exactly one card width to its right, and the opacity is the clamped percentage of d/width |
| Gesture.DragRightFrame | src/suaip.js:161-168 | the active card moves to x = d at y = delta, the left card sits at y = 0 exactly one card width to its left, and the opacity is the clamped percentage of d/width |
| Gesture.SettleUp | src/suaip.js:331-356 | an up release commits if and only if d − delta ≥ height − 2/3·viewport, and a commit resets the accumulator to 0; a snap-back sets it to max(delta − d, viewport − height), so −delta ≤ height − viewport afterwards, and moves the card exactly when it clamps |
| Gesture.SettleDown | src/suaip.js:362-387 | a down release commits if and only if delta + d ≥ viewport/3, and a commit resets the accumulator to 0; a snap-back sets it to min(delta + d, 0) ≤ 0 and moves the card to the origin exactly when the sum is positive |
| Gesture.SettleSide | src/suaip.js:393-425 | a left or right release commits if and only if the raw distance d ≥ width/3; the accumulator is unchanged either way, and a snap-back puts the card at (0, delta, 0) |
| Gesture.Settlement | src/suaip.js:201-209 | `_dragEnd` runs exactly one completion handler for each of the four directions and none for any other direction |
| Gesture.SettleUpRests | src/suaip.js:337-343 | after an up snap-back the card is at rest: a zero-distance release snaps back to the same offset without moving |
| Gesture.SettleDownRests | src/suaip.js:368-374 | the same holds after a down snap-back |
| Gesture.CommitMonotone | src/suaip.js:337 | in every direction, a longer release commits whenever a shorter one does |
| Gesture.ScenarioUpCommits | src/suaip.js:337 | with a 600-high card and a 900-high viewport, a 100 upward drag from rest commits |
| Gesture.ScenarioDownSnapsBack | src/suaip.js:368-373 | with a 900-high viewport, a 50 downward drag snaps back to the origin |
| Gesture.ScenarioLeftSnapsBack | src/suaip.js:394-395 | with a 360-wide viewport, an 80 leftward drag snaps back to the last vertical offset |
| Cards.FirstWith | src/suaip.js:131-135 | `getElementsByClassName(k)[0]` is a card of the document holding `k` with no earlier card holding it, or undefined exactly when no card holds `k` |
| Cards.CardElementsBinds | src/suaip.js:130-136 | `_setCardElements` keeps every card that was given; a role not given is bound exactly when some card of the document holds its class, and then to a card of the document that holds it |
| Cards.RoleFoundByClass | src/suaip.js:131-135 | in a consistent state, the first card holding a role's class is the card of that role |
| Cards.LookupRecoversRoles | src/suaip.js:238 | in a consistent state, looking the roles up by class gives back exactly the role map |
| Cards.TagRolesAddsRoleClasses | src/suaip.js:68-78 | `init` adds each supplied card's role class to it (left and right only when supplied) and changes no other class |
| Cards.TagRoles | src/suaip.js:68-78 | tagging changes the class lists of the same cards, adding and dropping none |
| Cards.TagStack | src/suaip.js:68-70 | tagging the three mandatory cards changes the class lists of the same cards |
| Cards.TagStackHas | src/suaip.js:68-70 | after the first three additions, a card holds a class exactly when it held it before or it is the before, active or after card and the class is that role's |
| Cards.TagRolesConsistent | src/suaip.js:68-81 | for five distinct supplied cards with no conflicting role class already in the document, tagging yields a consistent state whose role map is the configuration |
| Cards.NextRoleAxis | src/suaip.js:255-287 | up and down move exactly before, active and after, left and right move exactly active, left and right, and the active card always gives up its role |
| Cards.NextRoleInjective | src/suaip.js:255-287 | no two roles move to the same role, so a commit never puts two cards in one role |
| Cards.PrevRole | src/suaip.js:255-287 | every role has a predecessor in each direction's cycle |
| Cards.Rotate | src/suaip.js:255-287 | on commit, the card of role r takes role NextRole(dir, r) |
| Cards.SetCardClasses | src/suaip.js:245-288 | the class moves touch only cards that already have class lists |
| Cards.SetCardClassesTracked | src/suaip.js:245-288 | `_setCardClasses` swaps each tracked card's role class for its next role's class, removes `drag-complete` from the active card, and keeps every other class |
| Cards.SetCardClassesUntracked | src/suaip.js:245-288 | a card holding no role is left untouched |
| Cards.TrackedRoleClass | src/suaip.js:245-288 | when each card holds only its own role class, after `_setCardClasses` the card of role s holds the class of role r exactly when r is NextRole(dir, s) |
| Cards.RotatePermutes | src/suaip.js:255-287 | a rotation keeps the same five cards and keeps them distinct |
| Cards.RoleClassesFollowRotation | src/suaip.js:245-288 | after `_setCardClasses`, a card holds a role's class exactly when the rotated map gives it that role |
| Cards.OtherClassesKeptIn | src/suaip.js:252-253 | the same, needing only a complete role map of distinct cards that hold their role classes |
| Cards.OtherClassesKept | src/suaip.js:252-253 | apart from role classes, only the active card's `drag-complete` is removed |
| Cards.SetCardClassesRotates | src/suaip.js:233-238 | a commit leaves the state consistent, the class lookup re-derives exactly the rotated role map, and only `drag-complete` on the old active card changes among the other classes |
| Cards.RotateUndo | src/suaip.js:255-287 | down undoes up, up undoes down, right undoes left, and left undoes right |
| Cards.RotateThreeTimes | src/suaip.js:255-287 | every direction's rotation is a 3-cycle |
| Cards.RotateKeepsOtherAxis | src/suaip.js:255-287 | a vertical commit leaves the left and right cards in place, and a horizontal one leaves the before and after cards in place |
| SwipeState.Loaded | src/suaip.js:35-58 | after loading, the controller holds no role map, is unbound, has no direction (`false`), an accumulator of 0, no pending timer, the document's classes as they are and no inline style set by the controller, and does nothing |
| SwipeState.Translate | src/suaip.js:322-325 | `translateElement` sets the card's transform to the given triple, keeps its opacity and transition, and leaves every other card's style as it was |
| SwipeState.Show | src/suaip.js:143-182 | a drag frame gives the revealed card the frame's transform and opacity and keeps its transition, gives the active card the frame's transform and nothing else, and leaves every other card alone |
| SwipeState.WithTransition | src/suaip.js:296-298 | the transition loops change no card's presence in the style map |
| SwipeState.ClearStyles | src/suaip.js:224-228 | the style-clearing loop changes no card's presence in the style map |
| SwipeState.StyleLoopsPerCard | src/suaip.js:224-228 | a card of the role map gets the new transition and keeps its transform and opacity, or with the clearing loop loses all three; any card outside the role map keeps its whole style |
| SwipeState.Init | src/suaip.js:63-83 | `init` fails with "Invalid config" and changes nothing exactly when before, active or after is missing; otherwise the classes are the tagged ones, the role map is the lookup over them with the given cards first, and the drag handlers are bound, whether or not the role loop then throws |
| SwipeState.InitWellFormed | src/suaip.js:63-83 | on five distinct cards, `init` tags them, takes them as the role map, binds the listeners and reaches the invariant |
| SwipeState.InitFailsOnMissingSide | src/suaip.js:98-102 | once the three mandatory cards are given, `init` throws exactly when its lookup left the left or the right role unbound |
| SwipeState.InitFailsWithoutSide | src/suaip.js:72-102 | once the three mandatory cards are given, `init` throws at the role loop exactly when a side card was not given and no card of the document carries that side's class |
| SwipeState.SideFound | src/suaip.js:68-81 | after `init`'s tagging, a role is bound exactly when it was given or some card of the document already carried its class |
| SwipeState.DragUp | src/suaip.js:143-150 | a drag changes only inline styles, keeps the invariant, and is ignored while unbound |
| SwipeState.DragDown | src/suaip.js:175-182 | a drag changes only inline styles, keeps the invariant, and is ignored while unbound |
| SwipeState.DragLeft | src/suaip.js:152-159 | a drag changes only inline styles, keeps the invariant, and is ignored while unbound |
| SwipeState.DragRight | src/suaip.js:161-168 | a drag changes only inline styles, keeps the invariant, and is ignored while unbound |
| SwipeState.DragUpWrites | src/suaip.js:147-149 | while bound, `dragup` moves the active card to (0, delta − d, 0), puts the after card one card height below it with the clamped percentage of (d − delta)/height as opacity, and changes no other card's style |
| SwipeState.DragDownWrites | src/suaip.js:179-181 | while bound, `dragdown` moves the active card to (0, delta + d, 0), puts the before card one card height above it with the clamped percentage of (d + delta)/height as opacity, and changes no other card's style |
| SwipeState.DragLeftWrites | src/suaip.js:153-158 | while bound, `dragleft` moves the active card to (−d, delta, 0), puts the right card at (width − d, 0, 0) with the clamped percentage of d/width as opacity, and changes no other card's style |
| SwipeState.DragRightWrites | src/suaip.js:162-167 | while bound, `dragright` moves the active card to (d, delta, 0), puts the left card at (d − width, 0, 0) with the clamped percentage of d/width as opacity, and changes no other card's style |
| SwipeState.DragEnd | src/suaip.js:189-210 | a release keeps the role map, and is ignored while unbound |
| SwipeState.DragEndKeepsValid | src/suaip.js:189-210 | a release keeps the invariant |
| SwipeState.DragEndKeepsClasses | src/suaip.js:189-210 | a release keeps which cards have class lists and every class except `animate` and `drag-complete` on the active card |
| SwipeState.DragEndKeepsStyles | src/suaip.js:189-210 | a release keeps which cards have styles, every card's opacity, every transform except the active card's, and the whole style of every card outside the role map |
| SwipeState.CompleteKeeps | src/suaip.js:331-425 | a completion handler keeps every class except `drag-complete` on the active card, every opacity, and the whole style of every card other than the active one |
| SwipeState.Marker | src/suaip.js:331-425 | each direction marks the body with its own transient class (`dragup-complete`, `dragdown-complete`, `dragleft-complete`, and `dragright-complete` for right and any other direction), never `animate`, `drag-complete` or a role class |
| SwipeState.Complete | src/suaip.js:331-425 | every completion keeps the roles and the direction and sets the accumulator to the rule's value; a snap-back rebinds, schedules one more cleanup, keeps the classes and the body, and moves the active card only when the rule says so; a commit registers `transitionend`, adds the direction's body class and `drag-complete` on the active card, and leaves the styles alone |
| SwipeState.CompleteKeepsValid | src/suaip.js:331-425 | a completion reached from `_dragEnd` keeps the invariant and the role map |
| SwipeState.DragEndDispatch | src/suaip.js:189-210 | a release records the direction, marks the active card `animate` and gives every card the chosen transition; after it, a snap-back is bound again with one more cleanup timer and the rule's accumulator, and leaves the active card's transform as the drag left it unless the rule clamps, a commit waits for `transitionend` with the direction's body class and `drag-complete` on the active card, and any other direction is stranded |
| SwipeState.TransitionEnd | src/suaip.js:215-240 | the end of a transition is ignored unless the listener is registered, and otherwise rebinds |
| SwipeState.TransitionEndKeepsValid | src/suaip.js:215-240 | after a commit, the end of the transition keeps the invariant and leaves the role map rotated once in the drag's direction |
| SwipeState.TransitionEndClasses | src/suaip.js:215-240 | `_shiftActiveCard` strips the transient body classes, removes `animate` from the active card and then rotates the classes, and leaves the accumulator and the timers alone |
| SwipeState.TransitionEndClears | src/suaip.js:215-240 | `_shiftActiveCard` strips the eight transient body classes and the old active card's `animate` and `drag-complete`, clears every card's inline style, and leaves the accumulator, the direction and the whole style of every card outside the role map alone; every other non-role class of every card, including `animate` and `drag-complete` on the other cards, stays as it was |
| SwipeState.TransitionEndStyles | src/suaip.js:224-228 | no card of the role map keeps an inline transform, opacity or transition |
| SwipeState.StrippedClassesKept | src/suaip.js:216-235 | after removing `animate` from the active card and rotating, the active card holds neither `animate` nor `drag-complete`, and every other non-role class of every card, including those two on the other cards, is unchanged |
| SwipeState.CleanupTimer | src/suaip.js:306-312 | with no timer pending it changes nothing; otherwise it consumes one timer, removes `animate` from the active card and empties the transition of every card of the role map, and keeps the body, the accumulator, the direction, the phase and the roles |
| SwipeState.CleanupTimerKeeps | src/suaip.js:306-312 | a cleanup timer keeps every card's transform and opacity, the whole style of every card outside the role map, and every class except `animate` on the active card |
| SwipeState.StripKeepsConsistent | src/suaip.js:216 | removing `animate` here, or adding `drag-complete` on a commit (line 354), or any other class that is not a role class, keeps the roles consistent |
| SwipeState.SnapBackRests | src/suaip.js:331-425 | a drag followed by a release that snaps back leaves the roles unchanged, rebinds, and rests the active card at (0, new accumulator, 0) in every direction |
| SwipeState.CommitRotatesOnce | src/suaip.js:350-355 | a committing release followed by the end of its transition rotates the roles exactly once, rebinds with the rule's accumulator, and leaves no inline style |
| SwipeState.Step | src/suaip.js:143-313 | every event keeps the invariant and keeps the same five cards in the role map |
| SwipeState.Run | src/suaip.js:143-313 | every sequence of events keeps the invariant and keeps the same five cards in the role map |
| SwipeState.AwaitingIgnoresDrags | src/suaip.js:193 | while a commit waits for its transition, drag events change nothing |
| SwipeState.StrandedStep | src/suaip.js:189-210 | with the listeners off after a release in no direction, every single event leaves them off |
| SwipeState.StrandedForever | src/suaip.js:189-210 | once a release in no direction has left the listeners off, no sequence of events turns them on again |
| Controller.VisitedAll | src/suaip.js:296 | the `for…in` loop over the role map visits exactly its five cards |
| Controller.Swipe.constructor | src/suaip.js:35-58 | the loaded state |
| Controller.Swipe.Init | src/suaip.js:63-83 | performs exactly `SwipeState.Init` and returns its result |
| Controller.Swipe.BindTouchEvents | src/suaip.js:88-103 | registers the drag handlers and changes nothing else |
| Controller.Swipe.UnbindTouchEvents | src/suaip.js:108-119 | removes the drag handlers and changes nothing else |
| Controller.Swipe.SetCardElements | src/suaip.js:130-136 | the role map becomes, per role, the card given for it or the first card holding its class |
| Controller.Swipe.TranslateElement | src/suaip.js:322-325 | sets one card's transform and nothing else |
| Controller.Swipe.SetOpacity | src/suaip.js:149 | sets one card's opacity to the percentage and nothing else |
| Controller.Swipe.DragUp | src/suaip.js:143-150 | performs exactly `SwipeState.DragUp` |
| Controller.Swipe.DragDown | src/suaip.js:175-182 | performs exactly `SwipeState.DragDown` |
| Controller.Swipe.DragLeft | src/suaip.js:152-159 | performs exactly `SwipeState.DragLeft` |
| Controller.Swipe.DragRight | src/suaip.js:161-168 | performs exactly `SwipeState.DragRight` |
| Controller.Swipe.DragEnd | src/suaip.js:189-210 | performs exactly `SwipeState.DragEnd` |
| Controller.Swipe.AddAnimations | src/suaip.js:294-299 | marks the active card `animate` and gives every card of the role map the transition, through its loop |
| Controller.Swipe.RemoveAnimations | src/suaip.js:305-313 | schedules one more cleanup timer |
| Controller.Swipe.CleanupTimer | src/suaip.js:306-312 | performs exactly `SwipeState.CleanupTimer` |
| Controller.Swipe.FinishAnimation | src/suaip.js:307-311 | one cleanup is no longer pending, the active card loses `animate`, every card of the role map gets an empty transition, and nothing else changes |
| Controller.Swipe.SetTransitions | src/suaip.js:296-298 | the loop gives every card of the role map the transition and leaves every other card's style alone |
| Controller.Swipe.SnapBack | src/suaip.js:345-346 | a snap-back rebinds the drag handlers and schedules one more cleanup timer, and changes nothing else |
| Controller.Swipe.Discard | src/suaip.js:353-355 | a commit adds the direction's body class, marks the active card `drag-complete` and registers `transitionend`, and changes nothing else |
| Controller.Swipe.CompleteUpTransition | src/suaip.js:331-356 | performs `SwipeState.Complete` with the up rule `Gesture.SettleUp` |
| Controller.Swipe.CompleteDownTransition | src/suaip.js:362-387 | performs `SwipeState.Complete` with the down rule `Gesture.SettleDown` |
| Controller.Swipe.CompleteLeftTransition | src/suaip.js:393-406 | performs `SwipeState.Complete` with the side rule `Gesture.SettleSide` |
| Controller.Swipe.CompleteRightTransition | src/suaip.js:412-425 | performs `SwipeState.Complete` with the side rule `Gesture.SettleSide` |
| Controller.Swipe.ShiftActiveCard | src/suaip.js:215-240 | performs exactly `SwipeState.TransitionEnd` |
| Controller.Swipe.ClearAnimations | src/suaip.js:216-228 | the active card loses `animate`, the body the eight transient classes, and every card of the role map its inline style; nothing else changes |
| Controller.Swipe.RemoveBodyClasses | src/suaip.js:218-222 | the `forEach` strips exactly the eight transient classes from the body |
| Controller.Swipe.ClearStyles | src/suaip.js:224-228 | the loop empties the style of every card of the role map and of no other card |
| Controller.Swipe.SetCardClasses | src/suaip.js:245-288 | performs exactly the class moves of `Cards.SetCardClasses` |

## Left out

- Hammer.js is a foreign library (src/suaip.js:89-97, 109-113). The model
  does not construct the `Hammer` object or call `on`/`off`; the flag
  `bound` decides whether drag events are delivered. A second `init`
  creates a new hammer instance without discarding the old one. The model
  does not capture that leak.
- The `dragleft`/`dragright` handlers are registered only when a left or
  right card exists (src/suaip.js:96-97, 112-113). Under the invariant both
  cards always exist, so the model delivers horizontal drags whenever it is
  bound.
- The `touchstart`/`preventDefault` wiring (src/suaip.js:100-102, 116-118,
  431-433) only blocks page scrolling, so it is not modelled. The
  `transitionend` listener is modelled by the flag `shiftPending`. The
  model does not capture events bubbling from other elements.
- The 400 ms `setTimeout` in `_removeAnimations` is modelled as an explicit
  `CleanupTimer` event, and pending timers are counted. Its timing, and its
  race with a drag that starts before it fires, are not modelled.
- `translateElement` and the opacity write build CSS strings. The model
  keeps transforms as numeric triples and opacity as a percentage.
  `webkitTransform` is always written together with `transform`, so one
  field stands for both. The string `'all Xms ease'` is kept as its
  duration.
- The document, viewport and card sizes are fixed parameters.
  `cardElements.active.scrollHeight` and `scrollWidth` are read from
  whichever card is active. The model assumes all cards share one size.
  Sizes must be positive; division by a zero size, and NaN, are not
  modelled.
- Browser floating-point arithmetic is replaced by exact reals, for example
  in `innerHeight / 6 * 4`.
- SwipeState.DragUp, SwipeState.DragDown, SwipeState.DragLeft,
  SwipeState.DragRight, SwipeState.DragEnd, SwipeState.TransitionEnd and
  SwipeState.CleanupTimer require the invariant `Valid`. The model does not
  describe the handlers after an `init` that threw or on a DOM whose role
  classes are inconsistent. On such a DOM the source dereferences
  `undefined` or moves classes between the same card twice.
- Controller.Swipe.SetCardElements assigns the lookup function directly.
  `getElementsByClassName` is a DOM call with no source of its own;
  `Cards.FirstWith` specifies it.
- Direction `Still` stands both for hammer's `'none'` and for the initial
  `false`, since every branch treats them alike. Any other string hammer
  might report is not modelled.
- `gulpfile.js` is build configuration with no behaviour of the controller.

## Findings

| source | as written | input that shows it | evidently intended | confidence | as-written member | corrected member |
|---|---|---|---|---|---|---|
| src/suaip.js:149 | the opacity is written as the string `'.' + opacity`, so the percentage's digits become a decimal fraction (the same write is at lines 158, 167 and 181) | a drag that reaches 100 percent writes `.100`, which is opacity 0.1, while 99 percent gives 0.99 | the revealed card is fully opaque from 100 percent on: opacity `p / 100`, saturating at 1 | not executed | Gesture.WrittenOpacityDropsAtHundred | Gesture.IntendedOpacityOfDrag |
