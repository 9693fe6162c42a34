/**
  Cards and their roles (src/suaip.js). A card is a DOM element of the
  document, identified by a number; its class list is a set of class names.
  The controller's role map (`cardElements`) binds each role to a card and is
  re-derived from the class lists by `getElementsByClassName`. When a drag
  commits, three cards exchange their role classes in a cycle that depends on
  the direction.
*/
module Cards {
  import opened Wrappers
  import Gesture

  /** A DOM element of the document. */
  type Card = nat

  /** The five roles, each named after the class that marks it. */
  datatype Role = Before | Active | After | Left | Right

  const AllRoles: set<Role> := {Before, Active, After, Left, Right}

  /** The class names the controller adds to or removes from cards and the body. */
  datatype ClassName =
    | RoleClass(role: Role)
    | Animate
    | DragComplete
    | DragupReset
    | DragupComplete
    | DragdownReset
    | DragdownComplete
    | DragleftComplete
    | DragrightComplete

  /** The eight classes `_shiftActiveCard` strips from the body. */
  const TransientClasses: set<ClassName> :=
    {Animate, DragupReset, DragComplete, DragupComplete,
     DragdownReset, DragdownComplete, DragleftComplete, DragrightComplete}

  /** The class list of every card of the document. */
  type ClassLists = map<Card, set<ClassName>>

  /** `classList.add`. */
  function AddClass(m: ClassLists, c: Card, k: ClassName): ClassLists
    requires c in m
  {
    m[c := m[c] + {k}]
  }

  /** `classList.remove`. */
  function RemoveClass(m: ClassLists, c: Card, k: ClassName): ClassLists
    requires c in m
  {
    m[c := m[c] - {k}]
  }

  /** A `remove(from)` followed by an `add(to)` on the same card. */
  function Move(m: ClassLists, c: Card, from: ClassName, to: ClassName): ClassLists
    requires c in m
  {
    AddClass(RemoveClass(m, c, from), c, to)
  }

  /** Every card of the document has a class list. */
  predicate InDocument(doc: seq<Card>, m: ClassLists)
  {
    forall c :: c in doc ==> c in m
  }

  /** `document.getElementsByClassName(k)[0]`: the first card in document
      order whose class list holds `k`, or `None` (undefined) if there is none. */
  function FirstWith(doc: seq<Card>, m: ClassLists, k: ClassName): (r: Option<Card>)
    requires InDocument(doc, m)
    ensures r.Some? ==> r.value in doc && k in m[r.value]
    ensures r.None? <==> forall c :: c in doc ==> k !in m[c]
    ensures r.Some? ==> exists i :: 0 <= i < |doc| && doc[i] == r.value &&
                                    forall j :: 0 <= j < i ==> k !in m[doc[j]]
  {
    if doc == [] then None
    else if k in m[doc[0]] then Some(doc[0])
    else
      var r := FirstWith(doc[1..], m, k);
      assert forall c :: c in doc ==> c == doc[0] || c in doc[1..];
      if r.Some? then
        ghost var i :| 0 <= i < |doc[1..]| && doc[1..][i] == r.value &&
                       forall j :: 0 <= j < i ==> k !in m[doc[1..][j]];
        assert doc[i + 1] == r.value;
        assert forall j :: 0 <= j < i + 1 ==> k !in m[doc[j]] by {
          forall j | 0 <= j < i + 1 ensures k !in m[doc[j]] {
            if j > 0 { assert doc[j] == doc[1..][j - 1]; }
          }
        }
        r
      else r
  }

  /** `_setCardElements(before, active, after, left, right)`: a card that was
      given is taken as it is; a role not given is bound to the first card
      holding its class, and stays unbound (undefined) when none does. */
  function CardElements(doc: seq<Card>, m: ClassLists, given: map<Role, Card>): map<Role, Card>
    requires InDocument(doc, m)
  {
    map r | r in AllRoles && (r in given || FirstWith(doc, m, RoleClass(r)).Some?) ::
      if r in given then given[r] else FirstWith(doc, m, RoleClass(r)).value
  }

  /** What `_setCardElements` binds: a given card wins; a role that was not
      given is bound exactly when some card of the document holds its class,
      and then to such a card. */
  lemma {:induction false} CardElementsBinds(doc: seq<Card>, m: ClassLists, given: map<Role, Card>, r: Role)
    requires InDocument(doc, m)
    ensures r in given ==> r in CardElements(doc, m, given) && CardElements(doc, m, given)[r] == given[r]
    ensures r !in given ==>
      (r in CardElements(doc, m, given) <==> exists c :: c in doc && RoleClass(r) in m[c])
    ensures r in CardElements(doc, m, given) && r !in given ==>
      var c := CardElements(doc, m, given)[r]; c in doc && RoleClass(r) in m[c]
  {
    AllRolesComplete(r);
  }

  /** The consistent state the controller relies on: five distinct cards of
      the document, one per role, and each role's class held by its own card
      and by no other card of the document. */
  predicate Consistent(doc: seq<Card>, m: ClassLists, cards: map<Role, Card>)
  {
    && InDocument(doc, m)
    && cards.Keys == AllRoles
    && (forall r :: r in cards ==> cards[r] in doc)
    && (forall r1, r2 :: r1 in cards && r2 in cards && r1 != r2 ==> cards[r1] != cards[r2])
    && (forall c, r :: c in doc && r in cards ==> (RoleClass(r) in m[c] <==> c == cards[r]))
  }

  /** Every role is one of the five. */
  lemma AllRolesComplete(r: Role)
    ensures r in AllRoles
  {
  }

  /** In a consistent state, looking the roles up by class finds exactly the
      role map: re-deriving `cardElements` after a transition loses nothing. */
  lemma {:induction false} LookupRecoversRoles(doc: seq<Card>, m: ClassLists, cards: map<Role, Card>)
    requires Consistent(doc, m, cards)
    ensures CardElements(doc, m, map[]) == cards
  {
    var found := CardElements(doc, m, map[]);
    forall r | r in AllRoles
      ensures r in found && found[r] == cards[r]
    {
      RoleFoundByClass(doc, m, cards, r);
    }
    assert found.Keys == cards.Keys;
  }

  /** In a consistent state the first card holding a role's class is the
      card of that role. */
  lemma RoleFoundByClass(doc: seq<Card>, m: ClassLists, cards: map<Role, Card>, r: Role)
    requires Consistent(doc, m, cards)
    ensures FirstWith(doc, m, RoleClass(r)) == Some(cards[r])
  {
    AllRolesComplete(r);
    assert RoleClass(r) in m[cards[r]];
  }

  /** `init`'s tagging (src/suaip.js:68-78): each supplied card gets the class
      of its role; `left` and `right` only when supplied. */
  function TagRoles(m: ClassLists, config: map<Role, Card>): (m': ClassLists)
    requires Before in config && Active in config && After in config
    requires forall r :: r in config ==> config[r] in m
    ensures m'.Keys == m.Keys
  {
    var m3 := TagStack(m, config);
    var m4 := if Left in config then AddClass(m3, config[Left], RoleClass(Left)) else m3;
    if Right in config then AddClass(m4, config[Right], RoleClass(Right)) else m4
  }

  /** The first three additions of the tagging: the mandatory roles. */
  function TagStack(m: ClassLists, config: map<Role, Card>): (m': ClassLists)
    requires Before in config && Active in config && After in config
    requires forall r :: r in config ==> config[r] in m
    ensures m'.Keys == m.Keys
  {
    var m1 := AddClass(m, config[Before], RoleClass(Before));
    var m2 := AddClass(m1, config[Active], RoleClass(Active));
    AddClass(m2, config[After], RoleClass(After))
  }

  /** Tagging adds to each supplied card the class of its role and changes
      nothing else. */
  lemma {:induction false} TagRolesAddsRoleClasses(m: ClassLists, config: map<Role, Card>, c: Card, k: ClassName)
    requires Before in config && Active in config && After in config
    requires forall r :: r in config ==> config[r] in m
    requires c in m
    ensures TagRoles(m, config).Keys == m.Keys
    ensures k in TagRoles(m, config)[c] <==>
            k in m[c] || (k.RoleClass? && k.role in config && config[k.role] == c)
  {
    var m3 := TagStack(m, config);
    var m4 := if Left in config then AddClass(m3, config[Left], RoleClass(Left)) else m3;
    TagStackHas(m, config, c, k);
    if Left in config { AddClassHas(m3, config[Left], RoleClass(Left), c, k); }
    if Right in config { AddClassHas(m4, config[Right], RoleClass(Right), c, k); }
    if k.RoleClass? {
      AllRolesComplete(k.role);
    }
  }

  lemma {:induction false} TagStackHas(m: ClassLists, config: map<Role, Card>, c: Card, k: ClassName)
    requires Before in config && Active in config && After in config
    requires forall r :: r in config ==> config[r] in m
    requires c in m
    ensures k in TagStack(m, config)[c] <==>
            k in m[c] || (k.RoleClass? && k.role in {Before, Active, After} && config[k.role] == c)
  {
    var m1 := AddClass(m, config[Before], RoleClass(Before));
    var m2 := AddClass(m1, config[Active], RoleClass(Active));
    AddClassHas(m, config[Before], RoleClass(Before), c, k);
    AddClassHas(m1, config[Active], RoleClass(Active), c, k);
    AddClassHas(m2, config[After], RoleClass(After), c, k);
  }

  /** One `classList.add`, seen from any card. */
  lemma AddClassHas(m: ClassLists, d: Card, k0: ClassName, c: Card, k: ClassName)
    requires d in m && c in m
    ensures AddClass(m, d, k0).Keys == m.Keys
    ensures k in AddClass(m, d, k0)[c] <==> k in m[c] || (k == k0 && d == c)
  {
  }

  /** A configuration the controller can work with: five distinct cards of the
      document, and no card of the document already holding a role class that
      belongs to a different card. */
  predicate WellFormedConfig(doc: seq<Card>, m: ClassLists, config: map<Role, Card>)
  {
    && InDocument(doc, m)
    && config.Keys == AllRoles
    && (forall r :: r in config ==> config[r] in doc)
    && (forall r1, r2 :: r1 in config && r2 in config && r1 != r2 ==> config[r1] != config[r2])
    && (forall c, r :: c in doc && r in config && RoleClass(r) in m[c] ==> c == config[r])
  }

  /** `init` on a well-formed configuration reaches a consistent state whose
      role map is the configuration itself. */
  lemma {:induction false} TagRolesConsistent(doc: seq<Card>, m: ClassLists, config: map<Role, Card>)
    requires WellFormedConfig(doc, m, config)
    ensures Consistent(doc, TagRoles(m, config), config)
    ensures CardElements(doc, TagRoles(m, config), config) == config
  {
    var m' := TagRoles(m, config);
    forall c, r | c in doc && r in config
      ensures RoleClass(r) in m'[c] <==> c == config[r]
    {
      TagRolesAddsRoleClasses(m, config, c, RoleClass(r));
    }
    forall r | r in AllRoles ensures r in config {
    }
  }

  /** The role the card holding `r` takes when a drag in `dir` commits
      (src/suaip.js:255-287). Up and down cycle before, active and after; left,
      right and any other direction cycle active, left and right. */
  function NextRole(dir: Gesture.Direction, r: Role): Role
  {
    match dir
    case Up => (match r case Before => After case Active => Before case After => Active case _ => r)
    case Down => (match r case Before => Active case Active => After case After => Before case _ => r)
    case Left => (match r case Right => Active case Active => Left case Left => Right case _ => r)
    case _ => (match r case Left => Active case Active => Right case Right => Left case _ => r)
  }

  /** A commit moves exactly the three cards of its axis: up and down leave
      the side cards where they are, left and right the before and after
      cards, and the active card always gives up its role. */
  lemma NextRoleAxis(dir: Gesture.Direction, r: Role)
    ensures dir == Gesture.Up || dir == Gesture.Down ==> (NextRole(dir, r) == r <==> r == Left || r == Right)
    ensures dir != Gesture.Up && dir != Gesture.Down ==> (NextRole(dir, r) == r <==> r == Before || r == After)
    ensures r == Active ==> NextRole(dir, r) != Active
  {
  }

  /** The role whose card takes `r`: the inverse of `NextRole`. */
  function PrevRole(dir: Gesture.Direction, r: Role): (p: Role)
    ensures NextRole(dir, p) == r
  {
    match dir
    case Up => NextRole(Gesture.Down, r)
    case Down => NextRole(Gesture.Up, r)
    case Left => NextRole(Gesture.Right, r)
    case _ => NextRole(Gesture.Left, r)
  }

  /** The role map after a committed drag: every card moves from its role `r`
      to `NextRole(dir, r)`, so up gives before to the old active card, active
      to the old after card and after to the old before card, and so on. */
  function Rotate(cards: map<Role, Card>, dir: Gesture.Direction): (rotated: map<Role, Card>)
    requires cards.Keys == AllRoles
    ensures rotated.Keys == AllRoles
    ensures forall r :: r in AllRoles ==> rotated[NextRole(dir, r)] == cards[r]
  {
    match dir
    case Up => cards[Before := cards[Active]][Active := cards[After]][After := cards[Before]]
    case Down => cards[Before := cards[After]][Active := cards[Before]][After := cards[Active]]
    case Left => cards[Active := cards[Right]][Left := cards[Active]][Right := cards[Left]]
    case _ => cards[Active := cards[Left]][Right := cards[Active]][Left := cards[Right]]
  }

  /** `_setCardClasses` (src/suaip.js:245-288), step by step as the source
      performs it: the active card loses `active` and `drag-complete`, then
      the three cards of the direction's cycle swap role classes. Any
      direction other than up, down and left takes the right-hand branch. */
  function SetCardClasses(m: ClassLists, cards: map<Role, Card>, dir: Gesture.Direction): (m': ClassLists)
    requires cards.Keys == AllRoles
    requires forall r :: r in cards ==> cards[r] in m
    ensures m'.Keys == m.Keys
  {
    var before := cards[Before];
    var active := cards[Active];
    var after := cards[After];
    var left := cards[Left];
    var right := cards[Right];
    var m1 := RemoveClass(RemoveClass(m, active, RoleClass(Active)), active, DragComplete);
    match dir
    case Up =>
      var m2 := Move(m1, before, RoleClass(Before), RoleClass(After));
      var m3 := AddClass(m2, active, RoleClass(Before));
      Move(m3, after, RoleClass(After), RoleClass(Active))
    case Down =>
      var m2 := Move(m1, before, RoleClass(Before), RoleClass(Active));
      var m3 := AddClass(m2, active, RoleClass(After));
      Move(m3, after, RoleClass(After), RoleClass(Before))
    case Left =>
      var m2 := Move(m1, right, RoleClass(Right), RoleClass(Active));
      var m3 := AddClass(m2, active, RoleClass(Left));
      Move(m3, left, RoleClass(Left), RoleClass(Right))
    case _ =>
      var m2 := Move(m1, left, RoleClass(Left), RoleClass(Active));
      var m3 := AddClass(m2, active, RoleClass(Right));
      Move(m3, right, RoleClass(Right), RoleClass(Left))
  }

  /** On five distinct cards, the card of role `r` trades the class of `r` for
      the class of `NextRole(dir, r)`, and the active card also loses
      `drag-complete`; every other class stays. */
  lemma {:induction false} SetCardClassesTracked(m: ClassLists, cards: map<Role, Card>, dir: Gesture.Direction, r: Role)
    requires cards.Keys == AllRoles
    requires forall r :: r in cards ==> cards[r] in m
    requires forall r1, r2 :: r1 in cards && r2 in cards && r1 != r2 ==> cards[r1] != cards[r2]
    requires RoleClass(r) in m[cards[r]]
    ensures SetCardClasses(m, cards, dir)[cards[r]] ==
      m[cards[r]] - {RoleClass(r)} - (if r == Active then {DragComplete} else {}) + {RoleClass(NextRole(dir, r))}
  {
    AllRolesComplete(r);
  }

  /** A card holding none of the five roles keeps its classes. */
  lemma {:induction false} SetCardClassesUntracked(m: ClassLists, cards: map<Role, Card>, dir: Gesture.Direction, c: Card)
    requires cards.Keys == AllRoles
    requires forall r :: r in cards ==> cards[r] in m
    requires c in m && forall r :: r in cards ==> cards[r] != c
    ensures SetCardClasses(m, cards, dir)[c] == m[c]
  {
    assert forall r :: r in AllRoles ==> cards[r] != c;
  }

  /** A committed rotation is a permutation of the five cards: the same
      cards, still distinct. */
  lemma {:induction false} RotatePermutes(cards: map<Role, Card>, dir: Gesture.Direction)
    requires cards.Keys == AllRoles
    ensures Rotate(cards, dir).Values == cards.Values
    ensures (forall r1, r2 :: r1 in cards && r2 in cards && r1 != r2 ==> cards[r1] != cards[r2]) ==>
            (forall r1, r2 :: r1 in AllRoles && r2 in AllRoles && r1 != r2 ==> Rotate(cards, dir)[r1] != Rotate(cards, dir)[r2])
  {
    var rotated := Rotate(cards, dir);
    forall v | v in rotated.Values ensures v in cards.Values {
      var r :| r in rotated && rotated[r] == v;
      var p := PrevRole(dir, r);
      AllRolesComplete(p);
      assert rotated[NextRole(dir, p)] == cards[p];
    }
    forall v | v in cards.Values ensures v in rotated.Values {
      var s :| s in cards && cards[s] == v;
      AllRolesComplete(NextRole(dir, s));
      assert rotated[NextRole(dir, s)] == v;
    }
    if forall r1, r2 :: r1 in cards && r2 in cards && r1 != r2 ==> cards[r1] != cards[r2] {
      forall r1, r2 | r1 in AllRoles && r2 in AllRoles && r1 != r2
        ensures rotated[r1] != rotated[r2]
      {
        var p1, p2 := PrevRole(dir, r1), PrevRole(dir, r2);
        AllRolesComplete(p1);
        AllRolesComplete(p2);
        assert rotated[NextRole(dir, p1)] == cards[p1];
        assert rotated[NextRole(dir, p2)] == cards[p2];
      }
    }
  }

  /** The role classes after `_setCardClasses` sit exactly on the rotated
      role map's cards. */
  lemma {:induction false} RoleClassesFollowRotation(doc: seq<Card>, m: ClassLists, cards: map<Role, Card>,
                                                     dir: Gesture.Direction, c: Card, r: Role)
    requires Consistent(doc, m, cards)
    requires c in doc
    ensures RoleClass(r) in SetCardClasses(m, cards, dir)[c] <==> c == Rotate(cards, dir)[r]
  {
    var p := PrevRole(dir, r);
    AllRolesComplete(p);
    assert Rotate(cards, dir)[r] == cards[p] by {
      assert Rotate(cards, dir)[NextRole(dir, p)] == cards[p];
    }
    if s :| s in cards && cards[s] == c {
      TrackedRoleClass(m, cards, dir, s, r);
      NextRoleInjective(dir, p, s);
    } else {
      SetCardClassesUntracked(m, cards, dir, c);
      AllRolesComplete(r);
      assert RoleClass(r) !in m[c];
    }
  }

  lemma {:induction false} TrackedRoleClass(m: ClassLists, cards: map<Role, Card>, dir: Gesture.Direction, s: Role, r: Role)
    requires cards.Keys == AllRoles
    requires forall r :: r in cards ==> cards[r] in m
    requires forall r1, r2 :: r1 in cards && r2 in cards && r1 != r2 ==> cards[r1] != cards[r2]
    requires forall r :: r in cards ==> (RoleClass(r) in m[cards[s]] <==> r == s)
    ensures RoleClass(r) in SetCardClasses(m, cards, dir)[cards[s]] <==> r == NextRole(dir, s)
  {
    AllRolesComplete(r);
    AllRolesComplete(s);
    SetCardClassesTracked(m, cards, dir, s);
  }

  lemma NextRoleInjective(dir: Gesture.Direction, r1: Role, r2: Role)
    ensures NextRole(dir, r1) == NextRole(dir, r2) ==> r1 == r2
  {
  }

  /** Outside the role classes, `_setCardClasses` only removes
      `drag-complete` from the active card. */
  lemma {:induction false} OtherClassesKept(doc: seq<Card>, m: ClassLists, cards: map<Role, Card>,
                                            dir: Gesture.Direction, c: Card, k: ClassName)
    requires Consistent(doc, m, cards)
    requires c in doc && !k.RoleClass?
    ensures k in SetCardClasses(m, cards, dir)[c] <==> k in m[c] && !(c == cards[Active] && k == DragComplete)
  {
    forall r | r in cards ensures cards[r] in m && RoleClass(r) in m[cards[r]] {
      assert cards[r] in doc;
    }
    OtherClassesKeptIn(m, cards, dir, c, k);
  }

  /** `OtherClassesKept` with only the facts about the role map it uses. */
  lemma {:induction false} OtherClassesKeptIn(m: ClassLists, cards: map<Role, Card>,
                                              dir: Gesture.Direction, c: Card, k: ClassName)
    requires cards.Keys == AllRoles
    requires forall r :: r in cards ==> cards[r] in m && RoleClass(r) in m[cards[r]]
    requires forall r1, r2 :: r1 in cards && r2 in cards && r1 != r2 ==> cards[r1] != cards[r2]
    requires c in m && !k.RoleClass?
    ensures k in SetCardClasses(m, cards, dir)[c] <==> k in m[c] && !(c == cards[Active] && k == DragComplete)
  {
    if s :| s in cards && cards[s] == c {
      SetCardClassesTracked(m, cards, dir, s);
    } else {
      SetCardClassesUntracked(m, cards, dir, c);
    }
  }

  /** A committed drag in a consistent state (src/suaip.js:233-238): after
      `_setCardClasses` the state is consistent again, re-deriving the role map
      by class lookup yields exactly the rotated map, and the only non-role
      class that changes anywhere is `drag-complete`, removed from the old
      active card. */
  lemma {:induction false} SetCardClassesRotates(doc: seq<Card>, m: ClassLists, cards: map<Role, Card>, dir: Gesture.Direction)
    requires Consistent(doc, m, cards)
    ensures Consistent(doc, SetCardClasses(m, cards, dir), Rotate(cards, dir))
    ensures CardElements(doc, SetCardClasses(m, cards, dir), map[]) == Rotate(cards, dir)
    ensures forall c, k: ClassName :: c in doc && !k.RoleClass? ==>
      (k in SetCardClasses(m, cards, dir)[c] <==> k in m[c] && !(c == cards[Active] && k == DragComplete))
  {
    var m' := SetCardClasses(m, cards, dir);
    var rotated := Rotate(cards, dir);
    RotatePermutes(cards, dir);
    forall c, r | c in doc && r in rotated
      ensures RoleClass(r) in m'[c] <==> c == rotated[r]
    {
      RoleClassesFollowRotation(doc, m, cards, dir, c, r);
    }
    forall c, k: ClassName | c in doc && !k.RoleClass?
      ensures k in m'[c] <==> k in m[c] && !(c == cards[Active] && k == DragComplete)
    {
      OtherClassesKept(doc, m, cards, dir, c, k);
    }
    forall r | r in rotated ensures rotated[r] in doc {
      assert rotated[r] in rotated.Values;
    }
    assert Consistent(doc, m', rotated);
    LookupRecoversRoles(doc, m', rotated);
  }

  /** The direction whose commit undoes a commit in `dir`: down undoes up and
      right undoes left (and any other direction, which rotates like right). */
  function Opposite(dir: Gesture.Direction): Gesture.Direction
  {
    match dir
    case Up => Gesture.Down
    case Down => Gesture.Up
    case Left => Gesture.Right
    case _ => Gesture.Left
  }

  /** Committing in one direction and then in the opposite one gives every
      card its role back. */
  lemma {:induction false} RotateUndo(cards: map<Role, Card>, dir: Gesture.Direction)
    requires cards.Keys == AllRoles
    ensures Rotate(Rotate(cards, dir), Opposite(dir)) == cards
  {
    var back := Rotate(Rotate(cards, dir), Opposite(dir));
    forall r | r in AllRoles ensures back[r] == cards[r] {
      AllRolesComplete(NextRole(dir, r));
      assert NextRole(Opposite(dir), NextRole(dir, r)) == r;
    }
  }

  /** Three commits in the same direction bring every card back: each
      direction is a 3-cycle. */
  lemma {:induction false} RotateThreeTimes(cards: map<Role, Card>, dir: Gesture.Direction)
    requires cards.Keys == AllRoles
    ensures Rotate(Rotate(Rotate(cards, dir), dir), dir) == cards
  {
    var r1 := Rotate(cards, dir);
    var r3 := Rotate(Rotate(r1, dir), dir);
    forall r | r in AllRoles ensures r3[r] == cards[r] {
      var n1 := NextRole(dir, r);
      var n2 := NextRole(dir, n1);
      AllRolesComplete(n1);
      AllRolesComplete(n2);
      assert NextRole(dir, n2) == r;
    }
  }

  /** A vertical commit leaves the left and right cards in place, and a
      horizontal one leaves the before and after cards in place. */
  lemma RotateKeepsOtherAxis(cards: map<Role, Card>, dir: Gesture.Direction)
    requires cards.Keys == AllRoles
    ensures dir == Gesture.Up || dir == Gesture.Down ==>
      Rotate(cards, dir)[Left] == cards[Left] && Rotate(cards, dir)[Right] == cards[Right]
    ensures dir != Gesture.Up && dir != Gesture.Down ==>
      Rotate(cards, dir)[Before] == cards[Before] && Rotate(cards, dir)[After] == cards[After]
  {
  }
}
