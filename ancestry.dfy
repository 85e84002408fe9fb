/** Walking up parent links: the cycle guard of `can_reparent_object`, `reparent_object`,
    and the id-to-object map `filtered_root_ids` builds. */
module Ancestry {
  import opened Domain
  import opened Graph

  /** The parent of `x` as `iter().find(|o| o.id == x).and_then(|o| o.parent_id)` sees it:
      `None` for a root or an unknown id. */
  function ParentOf(objs: seq<BasObject>, x: nat): Option<nat> {
    match Lookup(objs, x)
    case None => None
    case Some(o) => o.parentId
  }

  /** The id reached after `n` steps up from `x`, `None` once the chain has ended. */
  function Walk(objs: seq<BasObject>, x: nat, n: nat): Option<nat>
    decreases n
  {
    if n == 0 then Some(x)
    else match ParentOf(objs, x)
      case None => None
      case Some(p) => Walk(objs, p, n - 1)
  }

  /** `a` is `x` or one of its ancestors. */
  ghost predicate IsAncestorOrSelf(objs: seq<BasObject>, a: nat, x: nat) {
    exists n: nat :: Walk(objs, x, n) == Some(a)
  }

  /** Walking `a + b` steps is walking `a` steps and then `b` more. */
  lemma {:induction false} WalkAppend(objs: seq<BasObject>, x: nat, a: nat, b: nat)
    ensures Walk(objs, x, a + b) == match Walk(objs, x, a) case None => None case Some(y) => Walk(objs, y, b)
    decreases a
  {
    if a > 0 {
      match ParentOf(objs, x)
      case None =>
      case Some(p) => WalkAppend(objs, p, a - 1, b);
    }
  }

  /** One more step is one parent lookup. */
  lemma WalkSnoc(objs: seq<BasObject>, x: nat, n: nat)
    ensures Walk(objs, x, n + 1) == match Walk(objs, x, n) case None => None case Some(y) => ParentOf(objs, y)
  {
    WalkAppend(objs, x, n, 1);
  }

  /** Once a walk has ended it stays ended. */
  lemma WalkNoneStays(objs: seq<BasObject>, x: nat, k: nat, n: nat)
    requires Walk(objs, x, k) == None && k <= n
    ensures Walk(objs, x, n) == None
  {
    WalkAppend(objs, x, k, n - k);
  }

  /** A walk that revisits an id repeats the stretch between the two visits forever. */
  lemma {:induction false} WalkRepeats(objs: seq<BasObject>, x: nat, j: nat, k: nat, n: nat)
    requires j < k <= n && Walk(objs, x, j) == Walk(objs, x, k) && Walk(objs, x, j).Some?
    ensures exists i :: j <= i < k && Walk(objs, x, n) == Walk(objs, x, i)
    decreases n
  {
    var p := k - j;
    WalkAppend(objs, x, k, n - k);
    WalkAppend(objs, x, j, n - k);
    assert Walk(objs, x, n) == Walk(objs, x, n - p);
    if n - p >= k {
      WalkRepeats(objs, x, j, k, n - p);
    } else {
      assert j <= n - p < k;
    }
  }

  /** Ids that occur as some object's `parent_id`. */
  function ParentIds(objs: seq<BasObject>): set<nat> {
    set o | o in objs && o.parentId.Some? :: o.parentId.value
  }

  /** Every id a walk reaches is its start or some object's parent. */
  lemma WalkStaysInParents(objs: seq<BasObject>, x: nat, n: nat)
    requires Walk(objs, x, n).Some?
    ensures Walk(objs, x, n).value in {x} + ParentIds(objs)
  {
    if n > 0 {
      WalkSnoc(objs, x, n - 1);
      var o := Lookup(objs, Walk(objs, x, n - 1).value).value;
      assert o in objs && o.parentId == Walk(objs, x, n);
    }
  }

  /** The edges `reparent_object` accepts: Controller under Building, Equipment under
      Controller. Points cannot be moved. */
  predicate CanMoveUnder(child: ObjectType, parent: ObjectType) {
    (child == Controller && parent == Building) || (child == Equipment && parent == Controller)
  }

  /** What `can_reparent_object` decides: both objects exist, the edge is one it accepts, the
      two differ, and the child is not the new parent or one of its ancestors. */
  ghost predicate CanReparent(objs: seq<BasObject>, child: nat, newParent: nat) {
    Lookup(objs, child).Some? && Lookup(objs, newParent).Some?
    && CanMoveUnder(Lookup(objs, child).value.objectType, Lookup(objs, newParent).value.objectType)
    && child != newParent
    && !IsAncestorOrSelf(objs, child, newParent)
  }

  /** A walk that never met `child` before step `k` and then stopped or revisited an id
      never meets it. */
  lemma WalkAvoids(objs: seq<BasObject>, x: nat, child: nat, j: nat, k: nat)
    requires forall i :: 0 <= i < k ==> Walk(objs, x, i) != Some(child)
    requires Walk(objs, x, k) == None || (j < k && Walk(objs, x, j) == Walk(objs, x, k) && Walk(objs, x, k).Some?)
    ensures !IsAncestorOrSelf(objs, child, x)
  {
    forall n: nat ensures Walk(objs, x, n) != Some(child) {
      if n >= k {
        if Walk(objs, x, k) == None {
          WalkNoneStays(objs, x, k, n);
        } else {
          WalkRepeats(objs, x, j, k, n);
        }
      }
    }
  }

  /** The cycle guard of `can_reparent_object`, made to terminate: walk up from `start`,
      answering `false` on meeting `child`, and `true` at the top of the chain or, which the
      source lacks, on coming back to an id already visited. */
  method WalkAvoidsChild(objs: seq<BasObject>, start: nat, child: nat) returns (ok: bool)
    ensures ok == !IsAncestorOrSelf(objs, child, start)
  {
    ghost var universe := {start} + ParentIds(objs);
    var cursor, visited, k := WalkUntilStop(objs, start, child, universe);
    if cursor == Some(child) {
      MetChild(objs, start, child, k);
      return false;
    }
    if cursor.Some? {
      RevisitAvoids(objs, start, child, universe, visited, k);
    } else {
      WalkAvoids(objs, start, child, 0, k);
    }
    return true;
  }

  /** The loop of the walk: step up until the chain ends, `child` is met or an id comes
      back. */
  method WalkUntilStop(objs: seq<BasObject>, start: nat, child: nat, ghost universe: set<nat>)
    returns (cursor: Option<nat>, visited: set<nat>, ghost k: nat)
    requires universe == {start} + ParentIds(objs)
    ensures Walking(objs, start, child, universe, visited, k) && cursor == Walk(objs, start, k)
    ensures cursor.None? || cursor.value == child || cursor.value in visited
  {
    cursor := Some(start);
    visited := {};
    k := 0;
    while cursor.Some? && cursor.value != child && cursor.value !in visited
      invariant Walking(objs, start, child, universe, visited, k) && cursor == Walk(objs, start, k)
      decreases |universe - visited|
    {
      var current := cursor.value;
      WalkStep(objs, start, child, universe, visited, k);
      visited := visited + {current};
      cursor := ParentOf(objs, current);
      k := k + 1;
    }
  }

  /** `can_reparent_object`: both objects exist, the edge is one the tree accepts, they
      differ, and the walk up from the new parent does not meet the child. */
  method CanReparentObject(objs: seq<BasObject>, child: nat, newParent: nat) returns (ok: bool)
    ensures ok == CanReparent(objs, child, newParent)
  {
    var c := Lookup(objs, child);
    if c.None? { return false; }
    var p := Lookup(objs, newParent);
    if p.None? { return false; }
    if !CanMoveUnder(c.value.objectType, p.value.objectType) || c.value.id == p.value.id {
      return false;
    }
    ok := WalkAvoidsChild(objs, newParent, child);
  }

  /** The loop state of the walk after `k` steps: `child` not met yet, and every visited id
      is one the walk has passed. */
  ghost predicate Walking(objs: seq<BasObject>, start: nat, child: nat, universe: set<nat>,
                          visited: set<nat>, k: nat) {
    universe == {start} + ParentIds(objs)
    && (forall i :: 0 <= i < k ==> Walk(objs, start, i) != Some(child))
    && visited <= universe
    && (forall x :: x in visited ==> exists i :: 0 <= i < k && Walk(objs, start, i) == Some(x))
  }

  /** One step of the walk at an id that is neither `child` nor visited keeps the loop
      state and shrinks the unvisited part of `universe`. */
  lemma WalkStep(objs: seq<BasObject>, start: nat, child: nat, universe: set<nat>, visited: set<nat>, k: nat)
    requires Walking(objs, start, child, universe, visited, k) && Walk(objs, start, k).Some?
    requires Walk(objs, start, k).value != child && Walk(objs, start, k).value !in visited
    ensures var current := Walk(objs, start, k).value;
            Walking(objs, start, child, universe, visited + {current}, k + 1)
            && Walk(objs, start, k + 1) == ParentOf(objs, current)
            && |universe - (visited + {current})| < |universe - visited|
  {
    var current := Walk(objs, start, k).value;
    WalkStaysInParents(objs, start, k);
    VisitShrinks(universe, visited, current);
    WalkSnoc(objs, start, k);
    NotMetStep(objs, start, child, k);
    forall x | x in visited + {current} ensures exists i :: 0 <= i < k + 1 && Walk(objs, start, i) == Some(x) {
      if x == current {
        assert Walk(objs, start, k) == Some(x);
      } else {
        var i :| 0 <= i < k && Walk(objs, start, i) == Some(x);
        assert 0 <= i < k + 1;
      }
    }
  }

  /** A walk that comes back to a visited id without having met `child` never meets it. */
  lemma RevisitAvoids(objs: seq<BasObject>, start: nat, child: nat, universe: set<nat>, visited: set<nat>, k: nat)
    requires Walking(objs, start, child, universe, visited, k) && Walk(objs, start, k).Some?
    requires Walk(objs, start, k).value in visited
    ensures !IsAncestorOrSelf(objs, child, start)
  {
    var j :| 0 <= j < k && Walk(objs, start, j) == Walk(objs, start, k);
    WalkAvoids(objs, start, child, j, k);
  }

  lemma MetChild(objs: seq<BasObject>, start: nat, child: nat, k: nat)
    requires Walk(objs, start, k) == Some(child)
    ensures IsAncestorOrSelf(objs, child, start)
  {
  }

  lemma VisitShrinks(universe: set<nat>, visited: set<nat>, x: nat)
    requires x in universe && x !in visited
    ensures |universe - (visited + {x})| < |universe - visited|
  {
    assert universe - (visited + {x}) == (universe - visited) - {x};
  }

  lemma NotMetStep(objs: seq<BasObject>, start: nat, child: nat, k: nat)
    requires forall i :: 0 <= i < k ==> Walk(objs, start, i) != Some(child)
    requires Walk(objs, start, k) != Some(child)
    ensures forall i :: 0 <= i < k + 1 ==> Walk(objs, start, i) != Some(child)
  {
  }

  /** The parent walk of `can_reparent_object` as written, given `fuel` iterations: `Some`
      with the answer when the loop ends within them, `None` when it is still running. */
  function ReparentWalkAsWritten(objs: seq<BasObject>, cursor: Option<nat>, child: nat, fuel: nat): Option<bool>
    decreases fuel
  {
    match cursor
    case None => Some(true)
    case Some(current) =>
      if current == child then Some(false)
      else if fuel == 0 then None
      else ReparentWalkAsWritten(objs, ParentOf(objs, current), child, fuel - 1)
  }

  /** `can_reparent_object` as written, run for at most `fuel` loop iterations. */
  function CanReparentAsWritten(objs: seq<BasObject>, child: nat, newParent: nat, fuel: nat): Option<bool> {
    match (Lookup(objs, child), Lookup(objs, newParent))
    case (Some(c), Some(p)) =>
      if !CanMoveUnder(c.objectType, p.objectType) || c.id == p.id then Some(false)
      else ReparentWalkAsWritten(objs, Some(newParent), child, fuel)
    case _ => Some(false)
  }

  /** Two Buildings that name each other as parent (possible in a hand-edited project file,
      which the load repair keeps because both parents exist) and a root Controller. */
  function ParentCycleExample(): seq<BasObject> {
    [NewObject(Building, Some(2), 1), NewObject(Building, Some(1), 2), NewObject(Controller, None, 3)]
  }

  lemma CycleParents()
    ensures ParentOf(ParentCycleExample(), 1) == Some(2) && ParentOf(ParentCycleExample(), 2) == Some(1)
    ensures Lookup(ParentCycleExample(), 1).value.objectType == Building
    ensures Lookup(ParentCycleExample(), 3).value.objectType == Controller
  {
    var objs := ParentCycleExample();
    assert Lookup(objs, 1) == Some(objs[0]);
    assert Lookup(objs, 2) == Some(objs[1]);
    assert Lookup(objs, 3) == Some(objs[2]);
  }

  /** `can_reparent_object(3, 1)` on that list: the loop as written never ends, however many
      iterations it is given, while the terminating walk answers (and the move is safe). */
  lemma CanReparentAsWrittenHangs(fuel: nat)
    ensures CanReparentAsWritten(ParentCycleExample(), 3, 1, fuel) == None
    ensures CanReparent(ParentCycleExample(), 3, 1)
  {
    CycleParents();
    CycleWalkRunsForever(fuel, 1);
    forall n: nat ensures Walk(ParentCycleExample(), 1, n) != Some(3) {
      CycleWalkStaysInCycle(n);
    }
  }

  lemma {:induction false} CycleWalkRunsForever(fuel: nat, at: nat)
    requires at == 1 || at == 2
    ensures ReparentWalkAsWritten(ParentCycleExample(), Some(at), 3, fuel) == None
    decreases fuel
  {
    CycleParents();
    if fuel > 0 {
      CycleWalkRunsForever(fuel - 1, 3 - at);
    }
  }

  lemma {:induction false} CycleWalkStaysInCycle(n: nat)
    ensures Walk(ParentCycleExample(), 1, n) == Some(1) || Walk(ParentCycleExample(), 1, n) == Some(2)
  {
    CycleParents();
    if n > 0 {
      CycleWalkStaysInCycle(n - 1);
      WalkSnoc(ParentCycleExample(), 1, n - 1);
    }
  }

  /** The same hang through the tree view: a Building reachable from a root shares its id with
      a Building whose parent is itself, and the first match is the one the walk follows. */
  function DuplicateIdExample(): seq<BasObject> {
    [NewObject(Building, Some(2), 1), NewObject(Building, Some(2), 2),
     NewObject(Building, None, 1), NewObject(Controller, None, 3)]
  }

  /** Dropping Controller 3 on the row of id 1 walks 1, 2, 2, ... and never ends. */
  lemma {:induction false} CanReparentAsWrittenHangsOnDuplicate(fuel: nat)
    ensures CanReparentAsWritten(DuplicateIdExample(), 3, 1, fuel) == None
  {
    var objs := DuplicateIdExample();
    assert Lookup(objs, 1) == Some(objs[0]);
    assert Lookup(objs, 3) == Some(objs[3]);
    assert ParentOf(objs, 1) == Some(2);
    DuplicateWalkRunsForever(fuel);
  }

  lemma {:induction false} DuplicateWalkRunsForever(fuel: nat)
    ensures ReparentWalkAsWritten(DuplicateIdExample(), Some(1), 3, fuel) == None
    ensures ReparentWalkAsWritten(DuplicateIdExample(), Some(2), 3, fuel) == None
    decreases fuel
  {
    var objs := DuplicateIdExample();
    assert Lookup(objs, 1) == Some(objs[0]);
    assert Lookup(objs, 2) == Some(objs[1]);
    if fuel > 0 {
      DuplicateWalkRunsForever(fuel - 1);
    }
  }

  /** Whenever the loop as written does end, it gives the answer of the terminating walk. */
  lemma AsWrittenAgreesWhenItEnds(objs: seq<BasObject>, child: nat, newParent: nat, fuel: nat)
    requires CanReparentAsWritten(objs, child, newParent, fuel).Some?
    ensures CanReparentAsWritten(objs, child, newParent, fuel).value == CanReparent(objs, child, newParent)
  {
    if Lookup(objs, child).Some? && Lookup(objs, newParent).Some?
       && CanMoveUnder(Lookup(objs, child).value.objectType, Lookup(objs, newParent).value.objectType)
       && child != newParent
    {
      AsWrittenWalkAgrees(objs, newParent, child, 0, fuel);
    }
  }

  lemma {:induction false} AsWrittenWalkAgrees(objs: seq<BasObject>, start: nat, child: nat, k: nat, fuel: nat)
    requires forall i :: 0 <= i < k ==> Walk(objs, start, i) != Some(child)
    requires ReparentWalkAsWritten(objs, Walk(objs, start, k), child, fuel).Some?
    ensures ReparentWalkAsWritten(objs, Walk(objs, start, k), child, fuel).value
            == !IsAncestorOrSelf(objs, child, start)
    decreases fuel
  {
    match Walk(objs, start, k)
    case None =>
      WalkAvoids(objs, start, child, 0, k);
    case Some(current) =>
      if current != child {
        WalkSnoc(objs, start, k);
        AsWrittenWalkAgrees(objs, start, child, k + 1, fuel - 1);
      }
  }

  /** The object list after `reparent_object`: the first object with the child's id gets the
      new parent; nothing else changes. */
  function SetParent(objs: seq<BasObject>, child: nat, newParent: nat): (r: seq<BasObject>)
    ensures |r| == |objs|
    ensures forall i :: 0 <= i < |objs| ==> r[i].id == objs[i].id && r[i].objectType == objs[i].objectType
  {
    match IndexOf(objs, child)
    case None => objs
    case Some(i) => objs[i := objs[i].(parentId := Some(newParent))]
  }

  /** `reparent_object`: the move happens only when `can_reparent_object` allows it. */
  ghost function Reparent(t: Tree, child: nat, newParent: nat): Tree {
    if CanReparent(t.objects, child, newParent) then t.(objects := SetParent(t.objects, child, newParent))
    else t
  }

  /** After the move the child's entry names the new parent, and every other id finds the
      object it found before. */
  lemma SetParentLookup(objs: seq<BasObject>, child: nat, newParent: nat, x: nat)
    requires child in Ids(objs)
    ensures var r := SetParent(objs, child, newParent);
            Lookup(r, x) == if x == child then Some(Lookup(objs, child).value.(parentId := Some(newParent)))
                            else Lookup(objs, x)
  {
    var r := SetParent(objs, child, newParent);
    IndexOfSameIds(objs, r, x);
  }

  /** Moving the child changes the parent of no other id. */
  lemma OtherParentSame(objs: seq<BasObject>, child: nat, newParent: nat, x: nat)
    requires child in Ids(objs) && x != child
    ensures ParentOf(SetParent(objs, child, newParent), x) == ParentOf(objs, x)
  {
    SetParentLookup(objs, child, newParent, x);
  }

  /** Two lists that give every id but `child` the same parent give the same walk from any
      start for as long as the walk has not met `child`. */
  lemma {:induction false} WalkAgrees(a: seq<BasObject>, b: seq<BasObject>, child: nat, x: nat, n: nat)
    requires forall y :: y != child ==> ParentOf(a, y) == ParentOf(b, y)
    requires forall i :: 0 <= i < n ==> Walk(b, x, i) != Some(child)
    ensures Walk(a, x, n) == Walk(b, x, n)
    decreases n
  {
    if n > 0 {
      assert Walk(b, x, 0) == Some(x);
      assert ParentOf(a, x) == ParentOf(b, x);
      match ParentOf(b, x)
      case None =>
      case Some(p) =>
        forall i | 0 <= i < n - 1 ensures Walk(b, p, i) != Some(child) {
          assert Walk(b, x, i + 1) == Walk(b, p, i);
        }
        WalkAgrees(a, b, child, p, n - 1);
    }
  }

  /** `reparent_object` never creates a cycle: afterwards the walk up from the new parent
      never reaches the child, and the child is not its own proper ancestor. */
  lemma ReparentNeverCreatesCycle(objs: seq<BasObject>, child: nat, newParent: nat)
    requires CanReparent(objs, child, newParent)
    ensures var r := SetParent(objs, child, newParent);
            (forall n: nat :: Walk(r, newParent, n) != Some(child))
            && (forall n: nat :: n >= 1 ==> Walk(r, child, n) != Some(child))
  {
    var r := SetParent(objs, child, newParent);
    forall y | y != child ensures ParentOf(r, y) == ParentOf(objs, y) {
      OtherParentSame(objs, child, newParent, y);
    }
    forall n: nat ensures Walk(r, newParent, n) != Some(child) {
      WalkAgrees(r, objs, child, newParent, n);
    }
    SetParentLookup(objs, child, newParent, child);
    assert ParentOf(r, child) == Some(newParent);
    forall n: nat | n >= 1 ensures Walk(r, child, n) != Some(child) {
      assert Walk(r, child, n) == Walk(r, newParent, n - 1);
    }
  }

  /** With unique ids, the objects after the move are the moved child and every other
      object unchanged. */
  lemma SetParentMembers(objs: seq<BasObject>, child: nat, newParent: nat)
    requires UniqueIds(objs) && child in Ids(objs)
    ensures var r := SetParent(objs, child, newParent);
            var moved := Lookup(objs, child).value.(parentId := Some(newParent));
            UniqueIds(r) && Ids(r) == Ids(objs)
            && (forall o :: o in r <==> o == moved || (o in objs && o.id != child))
  {
    var r := SetParent(objs, child, newParent);
    var i := IndexOf(objs, child).value;
    var moved := objs[i].(parentId := Some(newParent));
    assert r == objs[i := moved];
    forall o ensures o in r <==> o == moved || (o in objs && o.id != child) {
      if o in r {
        var j :| 0 <= j < |r| && r[j] == o;
        if j != i { assert objs[j] == o && o.id != child; }
      }
      if o in objs && o.id != child {
        var j :| 0 <= j < |objs| && objs[j] == o;
        assert r[j] == o;
      }
    }
    forall y ensures y in Ids(r) <==> y in Ids(objs) {
      if y in Ids(objs) {
        var o :| o in objs && o.id == y;
        var j :| 0 <= j < |objs| && objs[j] == o;
        assert r[j].id == y;
      }
    }
  }

  /** `reparent_object` keeps the tree coherent. */
  lemma ReparentPreservesCoherent(t: Tree, child: nat, newParent: nat)
    requires Coherent(t)
    ensures Coherent(Reparent(t, child, newParent))
  {
    if CanReparent(t.objects, child, newParent) {
      var objs := t.objects;
      var r := SetParent(objs, child, newParent);
      var c := Lookup(objs, child).value;
      var moved := c.(parentId := Some(newParent));
      SetParentMembers(objs, child, newParent);
      var pobj := Lookup(objs, newParent).value;
      forall a, b | a in r && b in r && a.parentId == Some(b.id)
        ensures CanBeChildOf(a.objectType, b.objectType)
      {
        if b == moved {
          assert c in objs;
          if a != moved { assert a in objs; }
        } else if a == moved {
          UniqueLookup(objs, b);
        }
      }
      assert ParentsExist(r);
      assert IdsBelow(r, t.nextId);
    }
  }
}
