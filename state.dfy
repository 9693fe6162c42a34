/**
  The swipe controller of src/suaip.js as a state machine on values. `State`
  holds what the module-level variables and the DOM hold between events; each
  event the controller reacts to is a function from the old state to the new
  one. The imperative controller (module Controller) is proved to perform
  exactly these transitions, and the lemmas below state what the source
  promises about sequences of them.

  The hammer.js registrations are the flag `bound`, the one-shot
  `transitionend` listener is `shiftPending`, and the 400 ms cleanup timers
  still to fire are counted by `pendingCleanups`.
*/
module SwipeState {
  import opened Wrappers
  import opened Cards
  import G = Gesture

  /** The inline style properties the controller writes on a card; `None` is
      the empty string. `transform` stands for both `transform` and
      `webkitTransform`, which are always written together; `opacity` is the
      percentage whose digits are written after a decimal point. */
  datatype Style = Style(transform: Option<G.Vec3>, opacity: Option<int>, transition: Option<nat>)

  const NoStyle: Style := Style(None, None, None)

  /** What the controller reads but never writes: the cards of the document in
      document order, the active card's scroll size and the viewport size. */
  datatype Env = Env(doc: seq<Card>, scrollHeight: real, scrollWidth: real,
                     innerHeight: real, innerWidth: real)

  datatype State = State(
    classes: ClassLists,          // class list of every card of the document
    body: set<ClassName>,         // class list of document.body
    style: map<Card, Style>,      // inline style of every card
    cards: map<Role, Card>,       // cardElements; an absent role is undefined
    direction: G.Direction,       // direction of the last drag end
    distanceDelta: real,          // vertical offset carried between drags
    bound: bool,                  // hammer's drag handlers registered
    shiftPending: bool,           // transitionend listener registered
    pendingCleanups: nat)         // 400 ms cleanup timers not yet fired

  datatype InitResult = Initialised | InvalidConfig | TypeError

  /** Ready: drags are accepted. AwaitingTransition: a committed drag waits for
      its transition to end. Stranded: listeners are off and nothing will turn
      them on again. */
  datatype Phase = Ready | AwaitingTransition | Stranded

  function PhaseOf(st: State): Phase
  {
    if st.bound then Ready else if st.shiftPending then AwaitingTransition else Stranded
  }

  /** Every card of the document has a class list and a style. */
  predicate Tracked(env: Env, st: State)
  {
    && InDocument(env.doc, st.classes)
    && (forall c :: c in env.doc ==> c in st.style)
  }

  /** The invariant of an initialised controller: consistent roles, never
      both listening for drags and waiting for a transition, and a pending
      transition always belongs to an active card marked `drag-complete`. */
  predicate Valid(env: Env, st: State)
  {
    && env.scrollHeight > 0.0 && env.scrollWidth > 0.0
    && Tracked(env, st)
    && Consistent(env.doc, st.classes, st.cards)
    && !(st.bound && st.shiftPending)
    && (st.shiftPending ==> DragComplete in st.classes[st.cards[Active]])
  }

  /** The state when the script has loaded and `init` has not yet run. */
  function Loaded(env: Env, classes: ClassLists, body: set<ClassName>): (st: State)
    requires InDocument(env.doc, classes)
    ensures Tracked(env, st) && PhaseOf(st) == Stranded && st.cards == map[]
    ensures st.distanceDelta == 0.0 && st.direction == G.Still && st.pendingCleanups == 0
    ensures st.classes == classes && st.body == body
    ensures forall c :: c in env.doc ==> st.style[c] == NoStyle
  {
    State(classes, body, map c | c in env.doc :: NoStyle, map[], G.Still, 0.0, false, false, 0)
  }

  /** `translateElement(card, v)`: only that card's transform changes. */
  function Translate(style: map<Card, Style>, c: Card, v: G.Vec3): (style': map<Card, Style>)
    requires c in style
    ensures style'.Keys == style.Keys
    ensures style'[c].transform == Some(v)
    ensures style'[c].opacity == style[c].opacity && style'[c].transition == style[c].transition
    ensures forall d :: d in style && d != c ==> style'[d] == style[d]
  {
    style[c := style[c].(transform := Some(v))]
  }

  /** A drag frame: the active card's translation, and the revealed card's
      translation and opacity; no other card and no transition changes. */
  function Show(style: map<Card, Style>, active: Card, revealed: Card, f: G.Frame): (style': map<Card, Style>)
    requires active in style && revealed in style
    ensures style'.Keys == style.Keys
    ensures style'[revealed].transform == Some(f.revealed) && style'[revealed].opacity == Some(f.opacity)
    ensures active != revealed ==> style'[active] == style[active].(transform := Some(f.active))
    ensures style'[revealed].transition == style[revealed].transition
    ensures forall d :: d in style && d != active && d != revealed ==> style'[d] == style[d]
  {
    var moved := Translate(style, active, f.active);
    moved[revealed := moved[revealed].(transform := Some(f.revealed), opacity := Some(f.opacity))]
  }

  /** The loop that sets the `transition` of every card of the role map to
      `t`: those cards keep their transform and opacity, and the other cards
      keep their whole style. */
  function WithTransition(style: map<Card, Style>, cards: map<Role, Card>, t: Option<nat>): (style': map<Card, Style>)
    ensures style'.Keys == style.Keys
  {
    map c | c in style :: if c in cards.Values then style[c].(transition := t) else style[c]
  }

  /** The loop that empties every inline style of every card of the role
      map; the other cards keep theirs. */
  function ClearStyles(style: map<Card, Style>, cards: map<Role, Card>): (style': map<Card, Style>)
    ensures style'.Keys == style.Keys
  {
    map c | c in style :: if c in cards.Values then NoStyle else style[c]
  }

  /** What the two style loops do card by card: a card of the role map gets
      the new transition and keeps its transform and opacity, or loses all
      three; any other card keeps its whole style. */
  lemma StyleLoopsPerCard(style: map<Card, Style>, cards: map<Role, Card>, t: Option<nat>, c: Card)
    requires c in style
    ensures c in cards.Values ==>
      && WithTransition(style, cards, t)[c].transition == t
      && WithTransition(style, cards, t)[c].transform == style[c].transform
      && WithTransition(style, cards, t)[c].opacity == style[c].opacity
      && ClearStyles(style, cards)[c] == NoStyle
    ensures c !in cards.Values ==>
      WithTransition(style, cards, t)[c] == style[c] && ClearStyles(style, cards)[c] == style[c]
  {
  }

  /** `init(options)` (src/suaip.js:63-83) on cards of the document. */
  function Init(env: Env, st: State, config: map<Role, Card>): (out: (State, InitResult))
    requires Tracked(env, st)
    requires forall r :: r in config ==> config[r] in env.doc
    ensures out.1 == InvalidConfig <==> !(Before in config && Active in config && After in config)
    ensures out.1 == InvalidConfig ==> out.0 == st
    ensures Before in config && Active in config && After in config ==>
      out.0 == st.(classes := TagRoles(st.classes, config),
                    cards := CardElements(env.doc, TagRoles(st.classes, config), config),
                    bound := true)
  {
    if !(Before in config && Active in config && After in config) then
      (st, InvalidConfig)
    else
      var classes := TagRoles(st.classes, config);
      var cards := CardElements(env.doc, classes, config);
      // Hammer's handlers are registered before the loop that dereferences
      // every role, which throws when one is undefined.
      (st.(classes := classes, cards := cards, bound := true),
       if cards.Keys == AllRoles then Initialised else TypeError)
  }

  /** `dragup` (src/suaip.js:143-150), delivered only while bound. */
  function DragUp(env: Env, st: State, distance: real): (st': State)
    requires Valid(env, st)
    ensures Valid(env, st')
    ensures st'.(style := st.style) == st
    ensures !st.bound ==> st' == st
  {
    if !st.bound then st
    else
      var f := G.DragUpFrame(st.distanceDelta, distance, env.scrollHeight);
      st.(style := Show(st.style, st.cards[Active], st.cards[After], f))
  }

  /** `dragdown` (src/suaip.js:175-182), delivered only while bound. */
  function DragDown(env: Env, st: State, distance: real): (st': State)
    requires Valid(env, st)
    ensures Valid(env, st')
    ensures st'.(style := st.style) == st
    ensures !st.bound ==> st' == st
  {
    if !st.bound then st
    else
      var f := G.DragDownFrame(st.distanceDelta, distance, env.scrollHeight);
      st.(style := Show(st.style, st.cards[Active], st.cards[Before], f))
  }

  /** `dragleft` (src/suaip.js:152-159), delivered only while bound (its
      handler is registered whenever a left card exists, which `Valid`
      guarantees). */
  function DragLeft(env: Env, st: State, distance: real): (st': State)
    requires Valid(env, st)
    ensures Valid(env, st')
    ensures st'.(style := st.style) == st
    ensures !st.bound ==> st' == st
  {
    if !st.bound then st
    else
      var f := G.DragLeftFrame(st.distanceDelta, distance, env.scrollWidth);
      st.(style := Show(st.style, st.cards[Active], st.cards[Right], f))
  }

  /** `dragright` (src/suaip.js:161-168), delivered only while bound. */
  function DragRight(env: Env, st: State, distance: real): (st': State)
    requires Valid(env, st)
    ensures Valid(env, st')
    ensures st'.(style := st.style) == st
    ensures !st.bound ==> st' == st
  {
    if !st.bound then st
    else
      var f := G.DragRightFrame(st.distanceDelta, distance, env.scrollWidth);
      st.(style := Show(st.style, st.cards[Active], st.cards[Left], f))
  }

  /** What a bound `dragup` writes (src/suaip.js:147-149): the active card
      moves to the accumulated offset minus the distance, the after card sits
      one card height below it and shows the clamped progress as opacity, and
      no other card's style changes. */
  lemma DragUpWrites(env: Env, st: State, distance: real)
    requires Valid(env, st) && st.bound
    ensures var st' := DragUp(env, st, distance);
      && st'.style[st.cards[Active]] == st.style[st.cards[Active]].(transform := Some(G.Vec3(0.0, st.distanceDelta - distance, 0.0)))
      && st'.style[st.cards[After]] == st.style[st.cards[After]].(
           transform := Some(G.Vec3(0.0, st.distanceDelta - distance + env.scrollHeight, 0.0)),
           opacity := Some(G.OpacityPercent((distance - st.distanceDelta) / env.scrollHeight)))
      && st'.style.Keys == st.style.Keys
      && forall c :: c in st.style && c != st.cards[Active] && c != st.cards[After] ==> st'.style[c] == st.style[c]
  {
  }

  /** What a bound `dragdown` writes (src/suaip.js:179-181): the active card
      moves down by the distance from the accumulated offset, the before card
      sits one card height above it with the clamped progress as opacity. */
  lemma DragDownWrites(env: Env, st: State, distance: real)
    requires Valid(env, st) && st.bound
    ensures var st' := DragDown(env, st, distance);
      && st'.style[st.cards[Active]] == st.style[st.cards[Active]].(transform := Some(G.Vec3(0.0, st.distanceDelta + distance, 0.0)))
      && st'.style[st.cards[Before]] == st.style[st.cards[Before]].(
           transform := Some(G.Vec3(0.0, st.distanceDelta + distance - env.scrollHeight, 0.0)),
           opacity := Some(G.OpacityPercent((distance + st.distanceDelta) / env.scrollHeight)))
      && st'.style.Keys == st.style.Keys
      && forall c :: c in st.style && c != st.cards[Active] && c != st.cards[Before] ==> st'.style[c] == st.style[c]
  {
  }

  /** What a bound `dragleft` writes (src/suaip.js:153-158): the active card
      moves left by the distance at its vertical offset, the right card sits
      at the top one card width to its right with the progress as opacity. */
  lemma DragLeftWrites(env: Env, st: State, distance: real)
    requires Valid(env, st) && st.bound
    ensures var st' := DragLeft(env, st, distance);
      && st'.style[st.cards[Active]] == st.style[st.cards[Active]].(transform := Some(G.Vec3(-distance, st.distanceDelta, 0.0)))
      && st'.style[st.cards[Right]] == st.style[st.cards[Right]].(
           transform := Some(G.Vec3(env.scrollWidth - distance, 0.0, 0.0)),
           opacity := Some(G.OpacityPercent(distance / env.scrollWidth)))
      && st'.style.Keys == st.style.Keys
      && forall c :: c in st.style && c != st.cards[Active] && c != st.cards[Right] ==> st'.style[c] == st.style[c]
  {
  }

  /** What a bound `dragright` writes (src/suaip.js:162-167): the mirror image
      of `dragleft`, revealing the left card one card width to the left. */
  lemma DragRightWrites(env: Env, st: State, distance: real)
    requires Valid(env, st) && st.bound
    ensures var st' := DragRight(env, st, distance);
      && st'.style[st.cards[Active]] == st.style[st.cards[Active]].(transform := Some(G.Vec3(distance, st.distanceDelta, 0.0)))
      && st'.style[st.cards[Left]] == st.style[st.cards[Left]].(
           transform := Some(G.Vec3(distance - env.scrollWidth, 0.0, 0.0)),
           opacity := Some(G.OpacityPercent(distance / env.scrollWidth)))
      && st'.style.Keys == st.style.Keys
      && forall c :: c in st.style && c != st.cards[Active] && c != st.cards[Left] ==> st'.style[c] == st.style[c]
  {
  }

  /** The body class a commit in `dir` adds: one of the transient classes
      `_shiftActiveCard` strips again, a different one for each direction,
      and never `animate` or `drag-complete`. */
  function Marker(dir: G.Direction): (k: ClassName)
    ensures k in TransientClasses && k != Animate && k != DragComplete && !k.RoleClass?
    ensures dir == G.Up <==> k == DragupComplete
    ensures dir == G.Down <==> k == DragdownComplete
    ensures dir == G.Left <==> k == DragleftComplete
    ensures dir != G.Up && dir != G.Down && dir != G.Left ==> k == DragrightComplete
  {
    match dir
    case Up => DragupComplete
    case Down => DragdownComplete
    case Left => DragleftComplete
    case _ => DragrightComplete
  }

  /** The tail shared by the four `_complete...Transition` handlers: a
      snap-back re-binds and schedules the cleanup timer; a commit marks the
      body and the active card and waits for `transitionend`. Either way the
      accumulator takes the rule's value and the roles stay. */
  function Complete(st: State, s: G.Settle, marker: ClassName): (st': State)
    requires st.cards.Keys == AllRoles
    requires st.cards[Active] in st.classes && st.cards[Active] in st.style
    ensures st'.cards == st.cards && st'.direction == st.direction && st'.distanceDelta == s.delta
    ensures s.SnapBack? ==>
      && st'.bound && st'.shiftPending == st.shiftPending
      && st'.pendingCleanups == st.pendingCleanups + 1
      && st'.classes == st.classes && st'.body == st.body
      && st'.style == (if s.moveActive.Some? then Translate(st.style, st.cards[Active], s.moveActive.value) else st.style)
    ensures s.Commit? ==>
      && st'.shiftPending && st'.bound == st.bound
      && st'.pendingCleanups == st.pendingCleanups
      && st'.body == st.body + {marker} && st'.style == st.style
      && st'.classes == AddClass(st.classes, st.cards[Active], DragComplete)
  {
    match s
    case SnapBack(delta, move) =>
      var style := if move.Some? then Translate(st.style, st.cards[Active], move.value) else st.style;
      st.(distanceDelta := delta, style := style, bound := true, pendingCleanups := st.pendingCleanups + 1)
    case Commit(delta) =>
      st.(distanceDelta := delta, body := st.body + {marker},
          classes := AddClass(st.classes, st.cards[Active], DragComplete), shiftPending := true)
  }

  /** `dragend` (src/suaip.js:189-210), delivered only while bound: record
      the direction, unbind, start the animation, and run the completion
      handler of the direction, if it is one of the four. */
  function DragEnd(env: Env, st: State, dir: G.Direction, distance: real, velocityY: real): (st': State)
    requires Valid(env, st)
    ensures st'.cards == st.cards
    ensures !st.bound ==> st' == st
  {
    if !st.bound then st
    else
      var armed := Armed(st, dir, velocityY);
      match G.Settlement(dir, st.distanceDelta, distance, env.scrollHeight, env.innerHeight, env.innerWidth)
      case None => armed
      case Some(s) => Complete(armed, s, Marker(dir))
  }

  /** The first half of `dragend` (src/suaip.js:190-198): record the
      direction, unbind, mark the active card `animate` and give every card of
      the role map the transition of the release's speed. */
  function Armed(st: State, dir: G.Direction, velocityY: real): State
    requires st.cards.Keys == AllRoles && st.cards[Active] in st.classes
  {
    st.(direction := dir, bound := false,
        classes := AddClass(st.classes, st.cards[Active], Animate),
        style := WithTransition(st.style, st.cards, Some(G.AnimationSpeed(velocityY))))
  }

  /** A release keeps the invariant. */
  lemma DragEndKeepsValid(env: Env, st: State, dir: G.Direction, distance: real, velocityY: real)
    requires Valid(env, st)
    ensures Valid(env, DragEnd(env, st, dir, distance, velocityY))
  {
    if st.bound {
      var armed := Armed(st, dir, velocityY);
      StripKeepsConsistent(env.doc, st.classes, st.cards, st.cards[Active], Animate);
      assert Valid(env, armed);
      match G.Settlement(dir, st.distanceDelta, distance, env.scrollHeight, env.innerHeight, env.innerWidth)
      case None =>
      case Some(s) =>
        CompleteKeepsValid(env, armed, s, Marker(dir));
    }
  }

  lemma CompleteKeepsValid(env: Env, st: State, s: G.Settle, marker: ClassName)
    requires Valid(env, st) && !st.bound && !st.shiftPending
    ensures Valid(env, Complete(st, s, marker))
    ensures Complete(st, s, marker).cards == st.cards
  {
    if s.Commit? {
      StripKeepsConsistent(env.doc, st.classes, st.cards, st.cards[Active], DragComplete);
    }
  }

  /** `_shiftActiveCard` (src/suaip.js:215-240), run by the one-shot
      `transitionend` listener: strip the transient classes and every inline
      style, rotate the roles if the active card is marked `drag-complete`,
      look the roles up again and re-bind. */
  function TransitionEnd(env: Env, st: State): (st': State)
    requires Valid(env, st)
    ensures !st.shiftPending ==> st' == st
    ensures st.shiftPending ==> PhaseOf(st') == Ready
  {
    if !st.shiftPending then st
    else
      var active := st.cards[Active];
      var stripped := RemoveClass(st.classes, active, Animate);
      var classes := if DragComplete in stripped[active] then SetCardClasses(stripped, st.cards, st.direction) else stripped;
      st.(classes := classes, body := st.body - TransientClasses,
          style := ClearStyles(st.style, st.cards), shiftPending := false,
          cards := CardElements(env.doc, classes, map[]), bound := true)
  }

  /** `_shiftActiveCard` after a commit keeps the invariant and leaves the
      role map rotated once in the cycle of the drag's direction. */
  lemma {:induction false} TransitionEndKeepsValid(env: Env, st: State)
    requires Valid(env, st)
    ensures Valid(env, TransitionEnd(env, st))
    ensures st.shiftPending ==> TransitionEnd(env, st).cards == Rotate(st.cards, st.direction)
  {
    if st.shiftPending {
      var active := st.cards[Active];
      var stripped := RemoveClass(st.classes, active, Animate);
      StripKeepsConsistent(env.doc, st.classes, st.cards, active, Animate);
      assert DragComplete in stripped[active];
      var classes := SetCardClasses(stripped, st.cards, st.direction);
      SetCardClassesRotates(env.doc, stripped, st.cards, st.direction);
      var st' := st.(classes := classes, body := st.body - TransientClasses,
                     style := ClearStyles(st.style, st.cards), shiftPending := false,
                     cards := Rotate(st.cards, st.direction), bound := true);
      assert Valid(env, st');
      assert TransitionEnd(env, st) == st';
    }
  }

  /** The callback of a 400 ms timer set by `_removeAnimations`
      (src/suaip.js:305-313): the active card loses `animate` and every card's
      transition is cleared. */
  function CleanupTimer(env: Env, st: State): (st': State)
    requires Valid(env, st)
    ensures Valid(env, st')
    ensures PhaseOf(st') == PhaseOf(st) && st'.cards == st.cards
    ensures st.pendingCleanups == 0 ==> st' == st
    ensures st.pendingCleanups > 0 ==>
      Animate !in st'.classes[st.cards[Active]] &&
      forall r :: r in st.cards ==> st'.style[st.cards[r]].transition == None
    ensures st.pendingCleanups > 0 ==>
      && st'.pendingCleanups == st.pendingCleanups - 1
      && st'.body == st.body && st'.distanceDelta == st.distanceDelta && st'.direction == st.direction
      && st'.bound == st.bound && st'.shiftPending == st.shiftPending
      && st'.classes.Keys == st.classes.Keys && st'.style.Keys == st.style.Keys
  {
    if st.pendingCleanups == 0 then st
    else
      st.(pendingCleanups := st.pendingCleanups - 1,
          classes := RemoveClass(st.classes, st.cards[Active], Animate),
          style := WithTransition(st.style, st.cards, None))
  }

  /** A cleanup timer touches nothing but `animate` on the active card and
      the transitions of the role map's cards: every transform and opacity,
      every other class and every other card's style stay. */
  lemma CleanupTimerKeeps(env: Env, st: State, c: Card, k: ClassName)
    requires Valid(env, st)
    ensures c in st.style ==>
      && CleanupTimer(env, st).style[c].transform == st.style[c].transform
      && CleanupTimer(env, st).style[c].opacity == st.style[c].opacity
    ensures c in st.style && c !in st.cards.Values ==> CleanupTimer(env, st).style[c] == st.style[c]
    ensures c in st.classes && !(c == st.cards[Active] && k == Animate) ==>
      (k in CleanupTimer(env, st).classes[c] <==> k in st.classes[c])
  {
    if c in st.style && st.pendingCleanups > 0 {
      StyleLoopsPerCard(st.style, st.cards, None, c);
    }
  }

  /** Removing a class that is not a role class keeps the roles consistent. */
  lemma StripKeepsConsistent(doc: seq<Card>, m: ClassLists, cards: map<Role, Card>, c: Card, k: ClassName)
    requires Consistent(doc, m, cards) && c in m && !k.RoleClass?
    ensures Consistent(doc, RemoveClass(m, c, k), cards)
    ensures Consistent(doc, AddClass(m, c, k), cards)
  {
    forall d, r | d in doc && r in cards
      ensures RoleClass(r) in RemoveClass(m, c, k)[d] <==> RoleClass(r) in m[d]
      ensures RoleClass(r) in AddClass(m, c, k)[d] <==> RoleClass(r) in m[d]
    {
    }
  }

  /** `init` on a well-formed configuration tags every card with its role,
      takes the configuration as the role map and binds the listeners. */
  lemma {:induction false} InitWellFormed(env: Env, st: State, config: map<Role, Card>)
    requires env.scrollHeight > 0.0 && env.scrollWidth > 0.0
    requires Tracked(env, st) && !st.shiftPending
    requires WellFormedConfig(env.doc, st.classes, config)
    ensures Init(env, st, config).1 == Initialised
    ensures Init(env, st, config).0.cards == config
    ensures Valid(env, Init(env, st, config).0)
    ensures PhaseOf(Init(env, st, config).0) == Ready
  {
    TagRolesConsistent(env.doc, st.classes, config);
  }

  /** With the three mandatory cards given, `init` throws (the TypeError of
      src/suaip.js:101) exactly when a side card was not given and no card of
      the document already carries that side's class. */
  lemma {:induction false} InitFailsWithoutSide(env: Env, st: State, config: map<Role, Card>)
    requires Tracked(env, st)
    requires forall r :: r in config ==> config[r] in env.doc
    requires Before in config && Active in config && After in config
    ensures Init(env, st, config).1 == TypeError <==>
      || (Left !in config && forall c :: c in env.doc ==> RoleClass(Left) !in st.classes[c])
      || (Right !in config && forall c :: c in env.doc ==> RoleClass(Right) !in st.classes[c])
  {
    InitFailsOnMissingSide(env, st, config);
    SideFound(env, st, config, Left);
    SideFound(env, st, config, Right);
  }

  /** `init` throws exactly when its lookup left a side unbound. */
  lemma {:induction false} InitFailsOnMissingSide(env: Env, st: State, config: map<Role, Card>)
    requires Tracked(env, st)
    requires forall r :: r in config ==> config[r] in env.doc
    requires Before in config && Active in config && After in config
    ensures var cards := CardElements(env.doc, TagRoles(st.classes, config), config);
      Init(env, st, config).1 == TypeError <==> Left !in cards || Right !in cards
  {
    var cards := CardElements(env.doc, TagRoles(st.classes, config), config);
    assert Init(env, st, config).1 == if cards.Keys == AllRoles then Initialised else TypeError;
    CardElementsBinds(env.doc, TagRoles(st.classes, config), config, Before);
    CardElementsBinds(env.doc, TagRoles(st.classes, config), config, Active);
    CardElementsBinds(env.doc, TagRoles(st.classes, config), config, After);
    assert cards.Keys == AllRoles <==> Left in cards && Right in cards by {
      forall r | r in AllRoles ensures r == Before || r == Active || r == After || r == Left || r == Right {}
    }
  }

  /** A role ends up in `init`'s role map exactly when it was given or some
      card of the document already carried its class. */
  lemma {:induction false} SideFound(env: Env, st: State, config: map<Role, Card>, r: Role)
    requires Tracked(env, st)
    requires forall r :: r in config ==> config[r] in env.doc
    requires Before in config && Active in config && After in config
    ensures r in CardElements(env.doc, TagRoles(st.classes, config), config) <==>
      r in config || exists c :: c in env.doc && RoleClass(r) in st.classes[c]
  {
    var classes := TagRoles(st.classes, config);
    AllRolesComplete(r);
    if r !in config {
      forall c | c in env.doc
        ensures RoleClass(r) in classes[c] <==> RoleClass(r) in st.classes[c]
      {
        TagRolesAddsRoleClasses(st.classes, config, c, RoleClass(r));
      }
    }
  }

  /** `_dragEnd` while bound (src/suaip.js:189-210): it records the direction,
      unbinds, marks the active card `animate`, gives every card the chosen
      transition, and dispatches to exactly one completion rule. A snap-back
      re-binds at once; a commit waits for the transition; any other
      direction leaves the controller stranded with its listeners off. */
  lemma {:induction false} DragEndDispatch(env: Env, st: State, dir: G.Direction, distance: real, velocityY: real)
    requires Valid(env, st) && st.bound
    ensures var st' := DragEnd(env, st, dir, distance, velocityY);
      var settle := G.Settlement(dir, st.distanceDelta, distance, env.scrollHeight, env.innerHeight, env.innerWidth);
      && st'.direction == dir
      && Animate in st'.classes[st.cards[Active]]
      && (forall r :: r in st.cards ==> st'.style[st.cards[r]].transition == Some(G.AnimationSpeed(velocityY)))
      && (settle.None? ==>
            PhaseOf(st') == Stranded && st'.distanceDelta == st.distanceDelta &&
            st'.body == st.body && st'.pendingCleanups == st.pendingCleanups)
      && (settle.Some? && settle.value.SnapBack? ==>
            PhaseOf(st') == Ready && st'.distanceDelta == settle.value.delta &&
            st'.body == st.body && st'.pendingCleanups == st.pendingCleanups + 1 &&
            (settle.value.moveActive.Some? ==> st'.style[st.cards[Active]].transform == settle.value.moveActive) &&
            (settle.value.moveActive.None? ==> st'.style[st.cards[Active]].transform == st.style[st.cards[Active]].transform))
      && (settle.Some? && settle.value.Commit? ==>
            PhaseOf(st') == AwaitingTransition && st'.distanceDelta == settle.value.delta &&
            st'.body == st.body + {Marker(dir)} && DragComplete in st'.classes[st.cards[Active]] &&
            st'.pendingCleanups == st.pendingCleanups)
  {
    var speed := G.AnimationSpeed(velocityY);
    var withSpeed := WithTransition(st.style, st.cards, Some(speed));
    forall r | r in st.cards ensures withSpeed[st.cards[r]].transition == Some(speed) {
      assert st.cards[r] in st.cards.Values;
    }
    var armed := Armed(st, dir, velocityY);
    match G.Settlement(dir, st.distanceDelta, distance, env.scrollHeight, env.innerHeight, env.innerWidth)
    case None =>
      assert DragEnd(env, st, dir, distance, velocityY) == armed;
    case Some(s) =>
      assert DragEnd(env, st, dir, distance, velocityY) == Complete(armed, s, Marker(dir));
  }

  /** What a release leaves alone (src/suaip.js:189-210): every class but
      `animate` and `drag-complete` on the active card. */
  lemma {:induction false} DragEndKeepsClasses(env: Env, st: State, dir: G.Direction, distance: real, velocityY: real,
                                               c: Card, k: ClassName)
    requires Valid(env, st) && st.bound
    ensures var st' := DragEnd(env, st, dir, distance, velocityY);
      && st'.classes.Keys == st.classes.Keys
      && (c in st.classes && !(c == st.cards[Active] && (k == Animate || k == DragComplete)) ==>
            (k in st'.classes[c] <==> k in st.classes[c]))
  {
    var armed := Armed(st, dir, velocityY);
    match G.Settlement(dir, st.distanceDelta, distance, env.scrollHeight, env.innerHeight, env.innerWidth)
    case None =>
      assert DragEnd(env, st, dir, distance, velocityY) == armed;
    case Some(s) =>
      assert DragEnd(env, st, dir, distance, velocityY) == Complete(armed, s, Marker(dir));
      CompleteKeeps(armed, s, Marker(dir), c, k);
  }

  /** What a release leaves alone in the inline styles (src/suaip.js:189-210):
      every opacity, every transform but the active card's, and the whole
      style of every card outside the role map. */
  lemma {:induction false} DragEndKeepsStyles(env: Env, st: State, dir: G.Direction, distance: real, velocityY: real,
                                              c: Card)
    requires Valid(env, st) && st.bound
    ensures var st' := DragEnd(env, st, dir, distance, velocityY);
      && st'.style.Keys == st.style.Keys
      && (c in st.style ==> st'.style[c].opacity == st.style[c].opacity)
      && (c in st.style && c != st.cards[Active] ==> st'.style[c].transform == st.style[c].transform)
      && (c in st.style && c !in st.cards.Values ==> st'.style[c] == st.style[c])
  {
    var armed := Armed(st, dir, velocityY);
    if c in st.style {
      StyleLoopsPerCard(st.style, st.cards, Some(G.AnimationSpeed(velocityY)), c);
    }
    match G.Settlement(dir, st.distanceDelta, distance, env.scrollHeight, env.innerHeight, env.innerWidth)
    case None =>
      assert DragEnd(env, st, dir, distance, velocityY) == armed;
    case Some(s) =>
      assert DragEnd(env, st, dir, distance, velocityY) == Complete(armed, s, Marker(dir));
      CompleteKeeps(armed, s, Marker(dir), c, Animate);
  }

  /** What a completion handler leaves alone: every class but `drag-complete`
      on the active card, every opacity, and every other card's style. */
  lemma CompleteKeeps(st: State, s: G.Settle, marker: ClassName, c: Card, k: ClassName)
    requires st.cards.Keys == AllRoles
    requires st.cards[Active] in st.classes && st.cards[Active] in st.style
    ensures var st' := Complete(st, s, marker);
      && st'.classes.Keys == st.classes.Keys && st'.style.Keys == st.style.Keys
      && (c in st.classes && !(c == st.cards[Active] && k == DragComplete) ==>
            (k in st'.classes[c] <==> k in st.classes[c]))
      && (c in st.style ==> st'.style[c].opacity == st.style[c].opacity)
      && (c in st.style && c != st.cards[Active] ==> st'.style[c] == st.style[c])
  {
  }

  /** `_shiftActiveCard` after a commit (src/suaip.js:215-240): the body loses
      the eight transient classes, the old active card loses `animate` and
      `drag-complete`, no card of the role map keeps an inline style, the
      other classes stay, and the accumulator is untouched. */
  lemma {:induction false} TransitionEndClears(env: Env, st: State)
    requires Valid(env, st) && st.shiftPending
    ensures var st' := TransitionEnd(env, st);
      && st'.body == st.body - TransientClasses
      && Animate !in st'.classes[st.cards[Active]] && DragComplete !in st'.classes[st.cards[Active]]
      && (forall r :: r in st'.cards ==> st'.style[st'.cards[r]] == NoStyle)
      && (forall c, k: ClassName ::
            c in env.doc && !k.RoleClass? && !(c == st.cards[Active] && (k == Animate || k == DragComplete)) ==>
            (k in st'.classes[c] <==> k in st.classes[c]))
      && st'.distanceDelta == st.distanceDelta && st'.pendingCleanups == st.pendingCleanups
      && st'.direction == st.direction
      && (forall c :: c in st.style && c !in st.cards.Values ==> st'.style[c] == st.style[c])
  {
    TransitionEndClasses(env, st);
    StrippedClassesKept(env, st);
    TransitionEndStyles(env, st);
  }

  /** `_shiftActiveCard` after a commit strips `animate` and `drag-complete`
      from the old active card and keeps every other non-role class of every
      card, those two included on the other cards. */
  lemma {:induction false} StrippedClassesKept(env: Env, st: State)
    requires Valid(env, st) && st.shiftPending
    ensures Animate !in SetCardClasses(RemoveClass(st.classes, st.cards[Active], Animate), st.cards, st.direction)[st.cards[Active]]
    ensures DragComplete !in SetCardClasses(RemoveClass(st.classes, st.cards[Active], Animate), st.cards, st.direction)[st.cards[Active]]
    ensures forall c, k: ClassName ::
      c in env.doc && !k.RoleClass? && !(c == st.cards[Active] && (k == Animate || k == DragComplete)) ==>
      (k in SetCardClasses(RemoveClass(st.classes, st.cards[Active], Animate), st.cards, st.direction)[c] <==> k in st.classes[c])
  {
    var active := st.cards[Active];
    var stripped := RemoveClass(st.classes, active, Animate);
    var classes := SetCardClasses(stripped, st.cards, st.direction);
    StripKeepsConsistent(env.doc, st.classes, st.cards, active, Animate);
    OtherClassesKept(env.doc, stripped, st.cards, st.direction, active, Animate);
    OtherClassesKept(env.doc, stripped, st.cards, st.direction, active, DragComplete);
    forall c, k: ClassName | c in env.doc && !k.RoleClass? && !(c == active && (k == Animate || k == DragComplete))
      ensures k in classes[c] <==> k in st.classes[c]
    {
      OtherClassesKept(env.doc, stripped, st.cards, st.direction, c, k);
    }
  }

  /** The class lists `_shiftActiveCard` leaves after a commit: `animate`
      stripped from the active card, then the role rotation. */
  lemma {:induction false} TransitionEndClasses(env: Env, st: State)
    requires Valid(env, st) && st.shiftPending
    ensures Consistent(env.doc, RemoveClass(st.classes, st.cards[Active], Animate), st.cards)
    ensures TransitionEnd(env, st).classes ==
      SetCardClasses(RemoveClass(st.classes, st.cards[Active], Animate), st.cards, st.direction)
    ensures TransitionEnd(env, st).body == st.body - TransientClasses
    ensures TransitionEnd(env, st).distanceDelta == st.distanceDelta
    ensures TransitionEnd(env, st).pendingCleanups == st.pendingCleanups
  {
    var active := st.cards[Active];
    StripKeepsConsistent(env.doc, st.classes, st.cards, active, Animate);
    assert DragComplete in RemoveClass(st.classes, active, Animate)[active];
  }

  /** After `_shiftActiveCard` no card of the role map keeps an inline style. */
  lemma {:induction false} TransitionEndStyles(env: Env, st: State)
    requires Valid(env, st) && st.shiftPending
    ensures var st' := TransitionEnd(env, st);
      forall r :: r in st'.cards ==> st'.style[st'.cards[r]] == NoStyle
  {
    var st' := TransitionEnd(env, st);
    TransitionEndKeepsValid(env, st);
    RotatePermutes(st.cards, st.direction);
    assert st'.style == ClearStyles(st.style, st.cards);
    forall r | r in st'.cards ensures st'.style[st'.cards[r]] == NoStyle {
      assert st'.cards[r] in st'.cards.Values;
      assert st'.cards[r] in st.cards.Values;
    }
  }

  /** The drag event of a direction, delivered before the release. */
  function Drag(env: Env, st: State, dir: G.Direction, distance: real): State
    requires Valid(env, st)
  {
    match dir
    case Up => DragUp(env, st, distance)
    case Down => DragDown(env, st, distance)
    case Left => DragLeft(env, st, distance)
    case Right => DragRight(env, st, distance)
    case Still => st
  }

  /** A drag released below its threshold leaves the roles alone, re-arms
      the listeners and leaves the active card resting exactly at the new
      accumulated vertical offset, whichever way it was dragged. */
  lemma {:induction false} SnapBackRests(env: Env, st: State, dir: G.Direction, distance: real, velocityY: real)
    requires Valid(env, st) && st.bound
    requires G.Settlement(dir, st.distanceDelta, distance, env.scrollHeight, env.innerHeight, env.innerWidth).Some?
    requires G.Settlement(dir, st.distanceDelta, distance, env.scrollHeight, env.innerHeight, env.innerWidth).value.SnapBack?
    ensures var st' := DragEnd(env, Drag(env, st, dir, distance), dir, distance, velocityY);
      && PhaseOf(st') == Ready && st'.cards == st.cards
      && st'.style[st.cards[Active]].transform == Some(G.Vec3(0.0, st'.distanceDelta, 0.0))
  {
    var dragged := Drag(env, st, dir, distance);
    match dir {
      case Up => DragUpWrites(env, st, distance);
      case Down => DragDownWrites(env, st, distance);
      case Left => DragLeftWrites(env, st, distance);
      case Right => DragRightWrites(env, st, distance);
      case Still =>
    }
    assert dragged.(style := st.style) == st;
    DragEndDispatch(env, dragged, dir, distance, velocityY);
  }

  /** A drag released at or beyond its threshold, followed by the end of its
      transition, rotates the roles exactly once in the direction's cycle and
      leaves the controller ready with no inline style on any card. */
  lemma {:induction false} CommitRotatesOnce(env: Env, st: State, dir: G.Direction, distance: real, velocityY: real)
    requires Valid(env, st) && st.bound
    requires G.Settlement(dir, st.distanceDelta, distance, env.scrollHeight, env.innerHeight, env.innerWidth).Some?
    requires G.Settlement(dir, st.distanceDelta, distance, env.scrollHeight, env.innerHeight, env.innerWidth).value.Commit?
    ensures (DragEndKeepsValid(env, st, dir, distance, velocityY);
      var st' := TransitionEnd(env, DragEnd(env, st, dir, distance, velocityY));
      && st'.cards == Rotate(st.cards, dir) && PhaseOf(st') == Ready
      && st'.distanceDelta == G.Settlement(dir, st.distanceDelta, distance, env.scrollHeight, env.innerHeight, env.innerWidth).value.delta
      && (forall r :: r in st'.cards ==> st'.style[st'.cards[r]] == NoStyle))
  {
    var released := DragEnd(env, st, dir, distance, velocityY);
    DragEndKeepsValid(env, st, dir, distance, velocityY);
    DragEndDispatch(env, st, dir, distance, velocityY);
    TransitionEndKeepsValid(env, released);
    TransitionEndClears(env, released);
  }

  /** The events the controller reacts to. */
  datatype Event =
    | DragUpEvent(distance: real)
    | DragDownEvent(distance: real)
    | DragLeftEvent(distance: real)
    | DragRightEvent(distance: real)
    | DragEndEvent(dir: G.Direction, distance: real, velocityY: real)
    | TransitionEndEvent
    | CleanupTimerEvent

  /** One event; the invariant holds after it and the five cards stay the
      same five cards, whatever roles they hold. */
  function Step(env: Env, st: State, e: Event): (st': State)
    requires Valid(env, st)
    ensures Valid(env, st')
    ensures st'.cards.Values == st.cards.Values
  {
    match e
    case DragUpEvent(d) => DragUp(env, st, d)
    case DragDownEvent(d) => DragDown(env, st, d)
    case DragLeftEvent(d) => DragLeft(env, st, d)
    case DragRightEvent(d) => DragRight(env, st, d)
    case DragEndEvent(dir, d, v) =>
      DragEndKeepsValid(env, st, dir, d, v);
      DragEnd(env, st, dir, d, v)
    case TransitionEndEvent =>
      TransitionEndKeepsValid(env, st);
      RotatePermutes(st.cards, st.direction);
      TransitionEnd(env, st)
    case CleanupTimerEvent => CleanupTimer(env, st)
  }

  /** Any sequence of events keeps the invariant: roles stay exclusive and
      the role map always names the same five cards. */
  function Run(env: Env, st: State, events: seq<Event>): (st': State)
    requires Valid(env, st)
    ensures Valid(env, st')
    ensures st'.cards.Values == st.cards.Values
    decreases |events|
  {
    if events == [] then st else Run(env, Step(env, st, events[0]), events[1..])
  }

  /** While a commit waits for its transition, drags are not delivered. */
  lemma AwaitingIgnoresDrags(env: Env, st: State, e: Event)
    requires Valid(env, st) && PhaseOf(st) == AwaitingTransition
    requires !e.TransitionEndEvent? && !e.CleanupTimerEvent?
    ensures Step(env, st, e) == st
  {
    match e
    case DragUpEvent(d) =>
    case DragDownEvent(d) =>
    case DragLeftEvent(d) =>
    case DragRightEvent(d) =>
    case DragEndEvent(dir, d, v) =>
  }

  /** Once stranded by a release in no direction, the controller stays
      stranded whatever happens next. */
  lemma {:induction false} StrandedForever(env: Env, st: State, events: seq<Event>)
    requires Valid(env, st) && PhaseOf(st) == Stranded
    ensures PhaseOf(Run(env, st, events)) == Stranded
    decreases |events|
  {
    if events != [] {
      var next := Step(env, st, events[0]);
      StrandedStep(env, st, events[0]);
      StrandedForever(env, next, events[1..]);
    }
  }

  /** No single event leaves the stranded phase. */
  lemma StrandedStep(env: Env, st: State, e: Event)
    requires Valid(env, st) && PhaseOf(st) == Stranded
    ensures PhaseOf(Step(env, st, e)) == Stranded
  {
    match e
    case DragUpEvent(d) =>
    case DragDownEvent(d) =>
    case DragLeftEvent(d) =>
    case DragRightEvent(d) =>
    case DragEndEvent(dir, d, v) =>
    case TransitionEndEvent =>
    case CleanupTimerEvent =>
  }
}
