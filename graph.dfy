/** The object tree: lookup by id, the structural invariant the editing operations keep,
    and the two allocating edits `add_object` and `duplicate_object`. */
module Graph {
  import opened Domain
  import Text

  /** The part of the application state that tree edits touch: the project's object list
      and id counter, and the UI's selected object. */
  datatype Tree = Tree(objects: seq<BasObject>, nextId: nat, selected: Option<nat>)

  /** Index of the first object with the given id, as `iter().position` / `iter().find` see it. */
  function IndexOf(objs: seq<BasObject>, id: nat): (r: Option<nat>)
    ensures r.Some? ==> r.value < |objs| && objs[r.value].id == id
    ensures r.Some? ==> forall j :: 0 <= j < r.value ==> objs[j].id != id
    ensures r.None? ==> forall j :: 0 <= j < |objs| ==> objs[j].id != id
  {
    if |objs| == 0 then None
    else if objs[0].id == id then Some(0)
    else match IndexOf(objs[1..], id)
      case None => None
      case Some(k) => Some(k + 1)
  }

  /** `objects.iter().find(|o| o.id == id)` */
  function Lookup(objs: seq<BasObject>, id: nat): (r: Option<BasObject>)
    ensures r.Some? <==> id in Ids(objs)
    ensures r.Some? ==> r.value in objs && r.value.id == id
  {
    match IndexOf(objs, id)
    case None => None
    case Some(i) => Some(objs[i])
  }

  /** Every id in use. */
  function Ids(objs: seq<BasObject>): set<nat> {
    set o | o in objs :: o.id
  }

  /** No two positions of the object list hold the same id. */
  predicate UniqueIds(objs: seq<BasObject>) {
    forall i, j :: 0 <= i < j < |objs| ==> objs[i].id != objs[j].id
  }

  /** Every id is below `bound`, so `bound` is a fresh id. */
  predicate IdsBelow(objs: seq<BasObject>, bound: nat) {
    forall o :: o in objs ==> o.id < bound
  }

  /** Every `parent_id` names an object of the list. */
  predicate ParentsExist(objs: seq<BasObject>) {
    forall o :: o in objs && o.parentId.Some? ==> o.parentId.value in Ids(objs)
  }

  /** The parent-kind table of `add_object`: Building <- Controller <- Equipment <- Point. */
  predicate CanBeChildOf(child: ObjectType, parent: ObjectType) {
    (child == Controller && parent == Building)
    || (child == Equipment && parent == Controller)
    || (child == Point && parent == Equipment)
  }

  /** Every parent link joins kinds the table allows. */
  predicate WellKinded(objs: seq<BasObject>) {
    forall a, b :: a in objs && b in objs && a.parentId == Some(b.id)
      ==> CanBeChildOf(a.objectType, b.objectType)
  }

  /** The selection, when there is one, names an object of the list. */
  predicate SelectionValid(t: Tree) {
    t.selected.Some? ==> t.selected.value in Ids(t.objects)
  }

  /** The structural invariant of the object tree that every editing operation keeps:
      unique ids, a fresh `next_id`, existing parents, legal kinds on every link and a
      selection that names an object. */
  predicate Coherent(t: Tree) {
    UniqueIds(t.objects) && IdsBelow(t.objects, t.nextId) && ParentsExist(t.objects)
    && WellKinded(t.objects) && SelectionValid(t)
  }

  /** With unique ids, the object an id names is the one `Lookup` finds. */
  lemma UniqueLookup(objs: seq<BasObject>, o: BasObject)
    requires UniqueIds(objs) && o in objs
    ensures Lookup(objs, o.id) == Some(o)
  {
    var k :| 0 <= k < |objs| && objs[k] == o;
    var i := IndexOf(objs, o.id).value;
    assert !(i < k) && !(k < i);
  }

  /** The object `add_object` pushes: kind-specific defaults and the name `"{label} {id}"`. */
  function NewObject(kind: ObjectType, parent: Option<nat>, id: nat): BasObject {
    BasObject(id, parent, kind, Label(kind) + " " + Text.NatToString(id),
              "", "", "", "", "Lynxspring Edge", "None", "", false, false,
              StaticByEquipment, ZeroHours, AI, [])
  }

  /** The parent check of `add_object`: no check for a root, otherwise the parent must exist
      and the (child, parent) kinds must be in the table. */
  predicate CanAdd(objs: seq<BasObject>, kind: ObjectType, parent: Option<nat>) {
    match parent
    case None => true
    case Some(p) => Lookup(objs, p).Some? && CanBeChildOf(kind, Lookup(objs, p).value.objectType)
  }

  /** `add_object`: on an accepted parent, append a new object with id `next_id`, bump
      `next_id` and select the new object; otherwise change nothing. */
  function AddObject(t: Tree, kind: ObjectType, parent: Option<nat>): Tree {
    if CanAdd(t.objects, kind, parent) then
      Tree(t.objects + [NewObject(kind, parent, t.nextId)], t.nextId + 1, Some(t.nextId))
    else t
  }

  /** `add_object` with a parent changes the tree exactly when the parent exists and the kinds
      are one of the three adjacent pairs; otherwise objects, `next_id` and selection stay. */
  lemma AddObjectAcceptsExactlyTable(t: Tree, kind: ObjectType, p: nat)
    ensures var r := AddObject(t, kind, Some(p));
            (r != t) <==> p in Ids(t.objects)
                          && var pk := Lookup(t.objects, p).value.objectType;
                             ((kind, pk) == (Controller, Building) || (kind, pk) == (Equipment, Controller)
                              || (kind, pk) == (Point, Equipment))
  {
    var r := AddObject(t, kind, Some(p));
    if CanAdd(t.objects, kind, Some(p)) {
      assert |r.objects| == |t.objects| + 1;
    }
  }

  /** On success the added object sits at the end, carries the old `next_id` (an id no
      object had, when the tree is coherent), and is selected. */
  lemma AddObjectAllocates(t: Tree, kind: ObjectType, parent: Option<nat>)
    requires Coherent(t) && CanAdd(t.objects, kind, parent)
    ensures var r := AddObject(t, kind, parent);
            |r.objects| == |t.objects| + 1 && r.objects[..|t.objects|] == t.objects
            && r.objects[|t.objects|].id == t.nextId && t.nextId !in Ids(t.objects)
            && r.objects[|t.objects|].parentId == parent && r.objects[|t.objects|].objectType == kind
            && r.nextId == t.nextId + 1 && r.selected == Some(t.nextId)
  {
  }

  /** An object whose id is above every id keeps the ids unique when appended. */
  lemma AppendFreshKeepsUnique(s: seq<BasObject>, x: BasObject)
    requires UniqueIds(s) && IdsBelow(s, x.id)
    ensures UniqueIds(s + [x]) && IdsBelow(s + [x], x.id + 1)
  {
    var r := s + [x];
    forall i, j | 0 <= i < j < |r| ensures r[i].id != r[j].id {
      if j == |s| { assert r[i] in s; }
    }
  }

  /** `add_object` keeps the tree coherent. */
  lemma AddObjectPreservesCoherent(t: Tree, kind: ObjectType, parent: Option<nat>)
    requires Coherent(t)
    ensures Coherent(AddObject(t, kind, parent))
  {
    if CanAdd(t.objects, kind, parent) {
      var n := NewObject(kind, parent, t.nextId);
      var objs := t.objects + [n];
      AppendFreshKeepsUnique(t.objects, n);
      assert forall o :: o in objs <==> o in t.objects || o == n;
      assert Ids(objs) == Ids(t.objects) + {t.nextId};
      forall a, b | a in objs && b in objs && a.parentId == Some(b.id)
        ensures CanBeChildOf(a.objectType, b.objectType)
      {
        if a == n {
          assert b != n;
          UniqueLookup(t.objects, b);
        } else {
          assert b != n;
        }
      }
    }
  }

  /** `duplicate_object`: a shallow copy of the first object with the id, under a fresh id
      and the name suffix `" Copy"`; children are not copied. */
  function DuplicateObject(t: Tree, id: nat): Tree {
    match Lookup(t.objects, id)
    case None => t
    case Some(o) =>
      Tree(t.objects + [o.(id := t.nextId, name := o.name + " Copy")], t.nextId + 1, Some(t.nextId))
  }

  /** The copy keeps its original's parent and kind, and in a coherent tree nothing is a
      child of the copy: the subtree is not duplicated. */
  lemma DuplicateIsShallow(t: Tree, id: nat)
    requires Coherent(t) && id in Ids(t.objects)
    ensures var r := DuplicateObject(t, id);
            var o := Lookup(t.objects, id).value;
            |r.objects| == |t.objects| + 1 && r.objects[..|t.objects|] == t.objects
            && r.objects[|t.objects|] == o.(id := t.nextId, name := o.name + " Copy")
            && (forall c :: c in r.objects ==> c.parentId != Some(t.nextId))
  {
    var r := DuplicateObject(t, id);
    var o := Lookup(t.objects, id).value;
    forall c | c in r.objects ensures c.parentId != Some(t.nextId) {
      if c in t.objects {
        if c.parentId.Some? { assert c.parentId.value in Ids(t.objects); }
      } else {
        assert c.parentId == o.parentId;
        if o.parentId.Some? { assert o.parentId.value in Ids(t.objects); }
      }
    }
  }

  /** `duplicate_object` keeps the tree coherent. */
  lemma DuplicatePreservesCoherent(t: Tree, id: nat)
    requires Coherent(t)
    ensures Coherent(DuplicateObject(t, id))
  {
    match Lookup(t.objects, id)
    case None =>
    case Some(o) =>
      var c := o.(id := t.nextId, name := o.name + " Copy");
      var objs := t.objects + [c];
      AppendFreshKeepsUnique(t.objects, c);
      assert forall x :: x in objs <==> x in t.objects || x == c;
      assert Ids(objs) == Ids(t.objects) + {t.nextId};
      forall a, b | a in objs && b in objs && a.parentId == Some(b.id)
        ensures CanBeChildOf(a.objectType, b.objectType)
      {
        if a == c {
          assert o.parentId == Some(b.id);
        }
      }
  }
  /** Appending an object does not change what an existing id finds. */
  lemma {:induction false} IndexOfAppend(objs: seq<BasObject>, x: BasObject, id: nat)
    requires id in Ids(objs)
    ensures IndexOf(objs + [x], id) == IndexOf(objs, id)
    decreases |objs|
  {
    if objs[0].id != id {
      assert (objs + [x])[1..] == objs[1..] + [x];
      assert objs[1..] + [x] == (objs + [x])[1..];
      var o :| o in objs && o.id == id;
      assert o in objs[1..];
      IndexOfAppend(objs[1..], x, id);
    }
  }

  /** Two lists with the same id at every position find the same index for every id. */
  lemma {:induction false} IndexOfSameIds(a: seq<BasObject>, b: seq<BasObject>, x: nat)
    requires |a| == |b| && forall i :: 0 <= i < |a| ==> a[i].id == b[i].id
    ensures IndexOf(a, x) == IndexOf(b, x)
    decreases |a|
  {
    if |a| > 0 {
      IndexOfSameIds(a[1..], b[1..], x);
    }
  }

  /** Two object lists that agree position by position on id, parent and kind. */
  predicate SameSkeleton(a: seq<BasObject>, b: seq<BasObject>) {
    |a| == |b| && forall i :: 0 <= i < |a| ==>
      a[i].id == b[i].id && a[i].parentId == b[i].parentId && a[i].objectType == b[i].objectType
  }

  /** Appending two objects with the same id, parent and kind keeps the skeleton. */
  lemma AppendSameSkeleton(s: seq<BasObject>, x: BasObject, y: BasObject)
    requires x.id == y.id && x.parentId == y.parentId && x.objectType == y.objectType
    ensures SameSkeleton(s + [x], s + [y])
  {
  }

  /** Lists with the same skeleton hold the same ids. */
  lemma SkeletonSameIds(a: seq<BasObject>, b: seq<BasObject>)
    requires SameSkeleton(a, b)
    ensures Ids(a) == Ids(b)
  {
    forall y | y in Ids(b) ensures y in Ids(a) {
      var o :| o in b && o.id == y;
      var j :| 0 <= j < |b| && b[j] == o;
      assert a[j] in a;
    }
    forall y | y in Ids(a) ensures y in Ids(b) {
      var o :| o in a && o.id == y;
      var j :| 0 <= j < |a| && a[j] == o;
      assert b[j] in b;
    }
  }

  /** Appending objects keeps every id. */
  lemma AppendKeepsIds(a: seq<BasObject>, b: seq<BasObject>)
    ensures Ids(a) <= Ids(a + b)
  {
    forall y | y in Ids(a) ensures y in Ids(a + b) {
      var o :| o in a && o.id == y;
      assert o in a + b;
    }
  }

  /** Every object of `b` has an object of `a` with the same id, parent and kind. */
  lemma SkeletonPartner(a: seq<BasObject>, b: seq<BasObject>, o: BasObject) returns (p: BasObject)
    requires SameSkeleton(a, b) && o in b
    ensures p in a && p.id == o.id && p.parentId == o.parentId && p.objectType == o.objectType
  {
    var j :| 0 <= j < |b| && b[j] == o;
    p := a[j];
  }

  /** Coherence depends only on ids, parents and kinds: editing names, tags, types, hours or
      property groups keeps it. */
  lemma SkeletonKeepsCoherent(t: Tree, objs: seq<BasObject>)
    requires Coherent(t) && SameSkeleton(t.objects, objs)
    ensures Coherent(t.(objects := objs))
  {
    SkeletonSameIds(t.objects, objs);
    forall o | o in objs ensures o.id < t.nextId && (o.parentId.Some? ==> o.parentId.value in Ids(objs)) {
      var p := SkeletonPartner(t.objects, objs, o);
    }
    forall a, b | a in objs && b in objs && a.parentId == Some(b.id)
      ensures CanBeChildOf(a.objectType, b.objectType)
    {
      var pa := SkeletonPartner(t.objects, objs, a);
      var pb := SkeletonPartner(t.objects, objs, b);
    }
  }
}
