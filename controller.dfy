/**
  The controller of src/suaip.js as the source writes it: the module-level
  variables and the parts of the DOM it writes are the mutable fields of one
  object, and every handler changes them step by step. Each method is proved
  to perform exactly the transition of module SwipeState, so everything
  proved there holds of this object.
*/
module Controller {
  import opened Wrappers
  import opened Cards
  import G = Gesture
  import S = SwipeState

  /** The order `for (var card in cardElements)` visits the roles in. */
  const RoleOrder: seq<Role> := [Before, Active, After, Left, Right]

  /** The classes `_shiftActiveCard` strips from the body, in its order. */
  const BodyOrder: seq<ClassName> :=
    [Animate, DragupReset, DragComplete, DragupComplete,
     DragdownReset, DragdownComplete, DragleftComplete, DragrightComplete]

  /** The cards of the first `n` roles of `RoleOrder`. */
  ghost function Visited(cards: map<Role, Card>, n: nat): set<Card>
    requires cards.Keys == AllRoles && n <= |RoleOrder|
  {
    set j | 0 <= j < n :: cards[RoleOrder[j]]
  }

  lemma VisitedAll(cards: map<Role, Card>)
    requires cards.Keys == AllRoles
    ensures Visited(cards, |RoleOrder|) == cards.Values
  {
    forall c | c in cards.Values ensures c in Visited(cards, |RoleOrder|) {
      var r :| r in cards && cards[r] == c;
      AllRolesComplete(r);
      var j := match r
        case Before => 0
        case Active => 1
        case After => 2
        case Left => 3
        case Right => 4;
      assert RoleOrder[j] == r;
    }
  }

  class Swipe {
    // What the controller reads and never writes.
    const doc: seq<Card>
    const scrollHeight: real
    const scrollWidth: real
    const innerHeight: real
    const innerWidth: real

    // The module-level variables and the parts of the DOM the controller writes.
    var classes: ClassLists
    var body: set<ClassName>
    var style: map<Card, S.Style>
    var cards: map<Role, Card>
    var direction: G.Direction
    var distanceDelta: real
    var bound: bool
    var shiftPending: bool
    var pendingCleanups: nat

    function Env(): S.Env
    {
      S.Env(doc, scrollHeight, scrollWidth, innerHeight, innerWidth)
    }

    ghost function State(): S.State
      reads this
    {
      S.State(classes, body, style, cards, direction, distanceDelta, bound, shiftPending, pendingCleanups)
    }

    /** The role map is complete and the active card has a class list and a
        style: what the completion handlers dereference. */
    ghost predicate Armed()
      reads this
    {
      && cards.Keys == AllRoles
      && (forall r :: r in cards ==> cards[r] in classes && cards[r] in style)
    }

    /** The script has loaded: nothing bound, `direction` false, the
        accumulator 0. */
    constructor(doc: seq<Card>, scrollHeight: real, scrollWidth: real, innerHeight: real, innerWidth: real,
                classes: ClassLists, body: set<ClassName>)
      requires InDocument(doc, classes)
      ensures Env() == S.Env(doc, scrollHeight, scrollWidth, innerHeight, innerWidth)
      ensures State() == S.Loaded(Env(), classes, body)
    {
      this.doc := doc;
      this.scrollHeight := scrollHeight;
      this.scrollWidth := scrollWidth;
      this.innerHeight := innerHeight;
      this.innerWidth := innerWidth;
      this.classes := classes;
      this.body := body;
      this.style := map c | c in doc :: S.NoStyle;
      this.cards := map[];
      this.direction := G.Still;
      this.distanceDelta := 0.0;
      this.bound := false;
      this.shiftPending := false;
      this.pendingCleanups := 0;
    }

    /** `init(options)` (src/suaip.js:63-83). */
    method Init(config: map<Role, Card>) returns (result: S.InitResult)
      requires S.Tracked(Env(), State())
      requires forall r :: r in config ==> config[r] in doc
      modifies this
      ensures (State(), result) == S.Init(Env(), old(State()), config)
    {
      if !(Before in config && Active in config && After in config) {
        return S.InvalidConfig;
      }
      classes := AddClass(classes, config[Before], RoleClass(Before));
      classes := AddClass(classes, config[Active], RoleClass(Active));
      classes := AddClass(classes, config[After], RoleClass(After));
      if Left in config {
        classes := AddClass(classes, config[Left], RoleClass(Left));
      }
      if Right in config {
        classes := AddClass(classes, config[Right], RoleClass(Right));
      }
      SetCardElements(config);
      BindTouchEvents();
      // The loop at src/suaip.js:100-102 throws on a role left undefined.
      result := if cards.Keys == AllRoles then S.Initialised else S.TypeError;
    }

    /** `_bindTouchEvents` (src/suaip.js:88-103): the drag handlers are
        registered. */
    method BindTouchEvents()
      modifies this
      ensures State() == old(State()).(bound := true)
    {
      bound := true;
    }

    /** `_unbindTouchEvents` (src/suaip.js:108-119): the drag handlers are
        removed. */
    method UnbindTouchEvents()
      modifies this
      ensures State() == old(State()).(bound := false)
    {
      bound := false;
    }

    /** `_setCardElements` (src/suaip.js:130-136): each role is the card
        given for it, or else the first card of the document with its
        class. */
    method SetCardElements(given: map<Role, Card>)
      requires InDocument(doc, classes)
      modifies this
      ensures State() == old(State()).(cards := CardElements(doc, old(classes), given))
    {
      cards := CardElements(doc, classes, given);
    }

    /** `translateElement` (src/suaip.js:322-325). */
    method TranslateElement(c: Card, v: G.Vec3)
      requires c in style
      modifies this
      ensures State() == old(State()).(style := S.Translate(old(style), c, v))
    {
      style := style[c := style[c].(transform := Some(v))];
    }

    /** `card.style.opacity = '.' + percent`. */
    method SetOpacity(c: Card, percent: int)
      requires c in style
      modifies this
      ensures State() == old(State()).(style := old(style)[c := old(style)[c].(opacity := Some(percent))])
    {
      style := style[c := style[c].(opacity := Some(percent))];
    }

    /** The `dragup` handler (src/suaip.js:143-150), run only while bound. */
    method DragUp(distance: real)
      requires S.Valid(Env(), State())
      modifies this
      ensures State() == S.DragUp(Env(), old(State()), distance)
    {
      if bound {
        var f := G.DragUpFrame(distanceDelta, distance, scrollHeight);
        TranslateElement(cards[Active], f.active);
        TranslateElement(cards[After], f.revealed);
        SetOpacity(cards[After], f.opacity);
      }
    }

    /** The `dragdown` handler (src/suaip.js:175-182), run only while bound. */
    method DragDown(distance: real)
      requires S.Valid(Env(), State())
      modifies this
      ensures State() == S.DragDown(Env(), old(State()), distance)
    {
      if bound {
        var f := G.DragDownFrame(distanceDelta, distance, scrollHeight);
        TranslateElement(cards[Active], f.active);
        TranslateElement(cards[Before], f.revealed);
        SetOpacity(cards[Before], f.opacity);
      }
    }

    /** The `dragleft` handler (src/suaip.js:152-159), run only while bound. */
    method DragLeft(distance: real)
      requires S.Valid(Env(), State())
      modifies this
      ensures State() == S.DragLeft(Env(), old(State()), distance)
    {
      if bound {
        var f := G.DragLeftFrame(distanceDelta, distance, scrollWidth);
        TranslateElement(cards[Active], f.active);
        TranslateElement(cards[Right], f.revealed);
        SetOpacity(cards[Right], f.opacity);
      }
    }

    /** The `dragright` handler (src/suaip.js:161-168), run only while bound. */
    method DragRight(distance: real)
      requires S.Valid(Env(), State())
      modifies this
      ensures State() == S.DragRight(Env(), old(State()), distance)
    {
      if bound {
        var f := G.DragRightFrame(distanceDelta, distance, scrollWidth);
        TranslateElement(cards[Active], f.active);
        TranslateElement(cards[Left], f.revealed);
        SetOpacity(cards[Left], f.opacity);
      }
    }

    /** The `dragend` handler (src/suaip.js:189-210), run only while bound. */
    method DragEnd(dir: G.Direction, distance: real, velocityY: real)
      requires S.Valid(Env(), State())
      modifies this
      ensures State() == S.DragEnd(Env(), old(State()), dir, distance, velocityY)
    {
      if !bound {
        return;
      }
      ghost var st := State();
      direction := dir;
      UnbindTouchEvents();
      var speed := if velocityY > G.DragVelocityBoundary then G.AnimationSpeedSlow else G.AnimationSpeedFast;
      AddAnimations(speed);
      assert State() == S.Armed(st, dir, velocityY);
      if dir == G.Up {
        CompleteUpTransition(distance);
      } else if dir == G.Down {
        CompleteDownTransition(distance);
      } else if dir == G.Left {
        CompleteLeftTransition(distance);
      } else if dir == G.Right {
        CompleteRightTransition(distance);
      }
    }

    /** `_addAnimations` (src/suaip.js:294-299). */
    method AddAnimations(speed: nat)
      requires Armed()
      modifies this
      ensures State() == old(State()).(classes := AddClass(old(classes), old(cards)[Active], Animate),
                                       style := S.WithTransition(old(style), old(cards), Some(speed)))
    {
      classes := AddClass(classes, cards[Active], Animate);
      SetTransitions(Some(speed));
    }

    /** `_removeAnimations` (src/suaip.js:305-313): schedules the cleanup
        timer; its callback is `CleanupTimer`. */
    method RemoveAnimations()
      modifies this
      ensures State() == old(State()).(pendingCleanups := old(pendingCleanups) + 1)
    {
      pendingCleanups := pendingCleanups + 1;
    }

    /** The callback of a cleanup timer (src/suaip.js:306-312), run only when
        one is pending. */
    method CleanupTimer()
      requires S.Valid(Env(), State())
      modifies this
      ensures State() == S.CleanupTimer(Env(), old(State()))
    {
      if pendingCleanups == 0 {
        return;
      }
      FinishAnimation();
    }

    /** What one pending cleanup does: it is no longer pending, the active
        card loses `animate` and the role map's cards their transitions. */
    method FinishAnimation()
      requires Armed() && pendingCleanups > 0
      modifies this
      ensures State() == old(State()).(pendingCleanups := old(pendingCleanups) - 1,
                                       classes := RemoveClass(old(classes), old(cards)[Active], Animate),
                                       style := S.WithTransition(old(style), old(cards), None))
    {
      pendingCleanups := pendingCleanups - 1;
      classes := RemoveClass(classes, cards[Active], Animate);
      SetTransitions(None);
    }

    /** The loop of `_addAnimations` and of the cleanup callback: every card
        of the role map gets transition `t`. */
    method SetTransitions(t: Option<nat>)
      requires Armed()
      modifies this
      ensures State() == old(State()).(style := S.WithTransition(old(style), old(cards), t))
    {
      var restyled := style;
      var i := 0;
      while i < |RoleOrder|
        invariant 0 <= i <= |RoleOrder|
        invariant restyled.Keys == style.Keys
        invariant forall c :: c in style ==>
          restyled[c] == if c in Visited(cards, i) then style[c].(transition := t) else style[c]
      {
        var c := cards[RoleOrder[i]];
        restyled := restyled[c := restyled[c].(transition := t)];
        assert Visited(cards, i + 1) == Visited(cards, i) + {c};
        i := i + 1;
      }
      VisitedAll(cards);
      assert restyled == S.WithTransition(style, cards, t);
      style := restyled;
    }

    /** The tail of every snap-back: re-bind and schedule the cleanup. */
    method SnapBack()
      modifies this
      ensures State() == old(State()).(bound := true, pendingCleanups := old(pendingCleanups) + 1)
    {
      BindTouchEvents();
      RemoveAnimations();
    }

    /** The tail of every commit: mark the body and the active card and
        register the one-shot `transitionend` listener. */
    method Discard(marker: ClassName)
      requires Armed()
      modifies this
      ensures State() == old(State()).(body := old(body) + {marker},
                                       classes := AddClass(old(classes), old(cards)[Active], DragComplete),
                                       shiftPending := true)
    {
      body := body + {marker};
      classes := AddClass(classes, cards[Active], DragComplete);
      shiftPending := true;
    }

    /** `_completeUpTransition` (src/suaip.js:331-356). */
    method CompleteUpTransition(distance: real)
      requires Armed()
      modifies this
      ensures State() == S.Complete(old(State()),
        G.SettleUp(old(distanceDelta), distance, scrollHeight, innerHeight), S.Marker(G.Up))
    {
      distanceDelta := distanceDelta - distance;
      if -distanceDelta < scrollHeight - innerHeight / 6.0 * 4.0 {
        if -distanceDelta + innerHeight > scrollHeight {
          distanceDelta := -(scrollHeight - innerHeight);
          TranslateElement(cards[Active], G.Vec3(0.0, -(scrollHeight - innerHeight), 0.0));
        }
        SnapBack();
      } else {
        distanceDelta := 0.0;
        Discard(DragupComplete);
      }
    }

    /** `_completeDownTransition` (src/suaip.js:362-387). */
    method CompleteDownTransition(distance: real)
      requires Armed()
      modifies this
      ensures State() == S.Complete(old(State()),
        G.SettleDown(old(distanceDelta), distance, innerHeight), S.Marker(G.Down))
    {
      distanceDelta := distanceDelta + distance;
      if distanceDelta < innerHeight / 6.0 * 2.0 {
        if distanceDelta > 0.0 {
          distanceDelta := 0.0;
          TranslateElement(cards[Active], G.Vec3(0.0, 0.0, 0.0));
        }
        SnapBack();
      } else {
        distanceDelta := 0.0;
        Discard(DragdownComplete);
      }
    }

    /** `_completeLeftTransition` (src/suaip.js:393-406). */
    method CompleteLeftTransition(distance: real)
      requires Armed()
      modifies this
      ensures State() == S.Complete(old(State()),
        G.SettleSide(old(distanceDelta), distance, innerWidth), S.Marker(G.Left))
    {
      if distance < innerWidth / 3.0 {
        TranslateElement(cards[Active], G.Vec3(0.0, distanceDelta, 0.0));
        SnapBack();
      } else {
        Discard(DragleftComplete);
      }
    }

    /** `_completeRightTransition` (src/suaip.js:412-425). */
    method CompleteRightTransition(distance: real)
      requires Armed()
      modifies this
      ensures State() == S.Complete(old(State()),
        G.SettleSide(old(distanceDelta), distance, innerWidth), S.Marker(G.Right))
    {
      if distance < innerWidth / 3.0 {
        TranslateElement(cards[Active], G.Vec3(0.0, distanceDelta, 0.0));
        SnapBack();
      } else {
        Discard(DragrightComplete);
      }
    }

    /** `_shiftActiveCard` (src/suaip.js:215-240), run by the `transitionend`
        listener only while it is registered. */
    method ShiftActiveCard()
      requires S.Valid(Env(), State())
      modifies this
      ensures State() == S.TransitionEnd(Env(), old(State()))
    {
      if !shiftPending {
        return;
      }
      ClearAnimations();
      shiftPending := false;
      if DragComplete in classes[cards[Active]] {
        SetCardClasses();
      }
      SetCardElements(map[]);
      BindTouchEvents();
    }

    /** The first half of `_shiftActiveCard` (src/suaip.js:216-228): the
        active card loses `animate`, the body its transient classes, and
        every card of the role map its inline style. */
    method ClearAnimations()
      requires Armed()
      modifies this
      ensures State() == old(State()).(classes := RemoveClass(old(classes), old(cards)[Active], Animate),
                                       body := old(body) - TransientClasses,
                                       style := S.ClearStyles(old(style), old(cards)))
    {
      classes := RemoveClass(classes, cards[Active], Animate);

      RemoveBodyClasses();

      ClearStyles();
    }

    /** The `forEach` of `_shiftActiveCard` that strips the eight transient
        classes from the body. */
    method RemoveBodyClasses()
      modifies this
      ensures State() == old(State()).(body := old(body) - TransientClasses)
    {
      var stripped := body;
      var i := 0;
      while i < |BodyOrder|
        invariant 0 <= i <= |BodyOrder|
        invariant stripped == body - set j | 0 <= j < i :: BodyOrder[j]
      {
        stripped := stripped - {BodyOrder[i]};
        i := i + 1;
      }
      assert (set j | 0 <= j < |BodyOrder| :: BodyOrder[j]) == TransientClasses by {
        assert BodyOrder[0] == Animate && BodyOrder[1] == DragupReset && BodyOrder[2] == DragComplete;
        assert BodyOrder[3] == DragupComplete && BodyOrder[4] == DragdownReset && BodyOrder[5] == DragdownComplete;
        assert BodyOrder[6] == DragleftComplete && BodyOrder[7] == DragrightComplete;
      }
      body := stripped;
    }

    /** The loop of `_shiftActiveCard` that empties the transition,
        transform and opacity of every card of the role map. */
    method ClearStyles()
      requires Armed()
      modifies this
      ensures State() == old(State()).(style := S.ClearStyles(old(style), old(cards)))
    {
      var cleared := style;
      var i := 0;
      while i < |RoleOrder|
        invariant 0 <= i <= |RoleOrder|
        invariant cleared.Keys == style.Keys
        invariant forall c :: c in style ==> cleared[c] == if c in Visited(cards, i) then S.NoStyle else style[c]
      {
        var c := cards[RoleOrder[i]];
        cleared := cleared[c := S.NoStyle];
        assert Visited(cards, i + 1) == Visited(cards, i) + {c};
        i := i + 1;
      }
      VisitedAll(cards);
      assert cleared == S.ClearStyles(style, cards);
      style := cleared;
    }

    /** `_setCardClasses` (src/suaip.js:245-288). */
    method SetCardClasses()
      requires Armed()
      modifies this
      ensures State() == old(State()).(classes := Cards.SetCardClasses(old(classes), old(cards), old(direction)))
    {
      var before := cards[Before];
      var active := cards[Active];
      var after := cards[After];
      var left := cards[Left];
      var right := cards[Right];
      classes := RemoveClass(classes, active, RoleClass(Active));
      classes := RemoveClass(classes, active, DragComplete);
      if direction == G.Up {
        classes := RemoveClass(classes, before, RoleClass(Before));
        classes := AddClass(classes, before, RoleClass(After));
        classes := AddClass(classes, active, RoleClass(Before));
        classes := RemoveClass(classes, after, RoleClass(After));
        classes := AddClass(classes, after, RoleClass(Active));
      } else if direction == G.Down {
        classes := RemoveClass(classes, before, RoleClass(Before));
        classes := AddClass(classes, before, RoleClass(Active));
        classes := AddClass(classes, active, RoleClass(After));
        classes := RemoveClass(classes, after, RoleClass(After));
        classes := AddClass(classes, after, RoleClass(Before));
      } else if direction == G.Left {
        classes := RemoveClass(classes, right, RoleClass(Right));
        classes := AddClass(classes, right, RoleClass(Active));
        classes := AddClass(classes, active, RoleClass(Left));
        classes := RemoveClass(classes, left, RoleClass(Left));
        classes := AddClass(classes, left, RoleClass(Right));
      } else {
        classes := RemoveClass(classes, left, RoleClass(Left));
        classes := AddClass(classes, left, RoleClass(Active));
        classes := AddClass(classes, active, RoleClass(Right));
        classes := RemoveClass(classes, right, RoleClass(Right));
        classes := AddClass(classes, right, RoleClass(Left));
      }
    }
  }
}
