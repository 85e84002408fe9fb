/** Deleting an object together with everything below it (`remove_object_subtree`), and the
    business rule of the tree views that refuses to delete a Building. */
module Subtree {
  import opened Domain
  import opened Graph

  /** Ids of the objects whose parent is in `s`. */
  function Children(objs: seq<BasObject>, s: set<nat>): set<nat> {
    set o | o in objs && o.parentId.Some? && o.parentId.value in s :: o.id
  }

  /** `s` already holds every child of every id it holds. */
  predicate ClosedUnderChildren(objs: seq<BasObject>, s: set<nat>) {
    forall o :: o in objs && o.parentId.Some? && o.parentId.value in s ==> o.id in s
  }

  lemma SubsetCard<T>(a: set<T>, b: set<T>)
    requires a <= b
    ensures |a| <= |b|
    decreases |b|
  {
    if a != {} {
      var x :| x in a;
      SubsetCard(a - {x}, b - {x});
    }
  }

  /** The least set containing `s` and closed under children: `s` grown by children until
      nothing new appears. */
  function Closure(objs: seq<BasObject>, s: set<nat>): (r: set<nat>)
    ensures s <= r && r <= s + Ids(objs)
    ensures ClosedUnderChildren(objs, r)
    decreases |Ids(objs) - s|
  {
    var g := s + Children(objs, s);
    if g == s then s
    else
      var x :| x in g - s;
      SubsetCard(Ids(objs) - g, Ids(objs) - s - {x});
      Closure(objs, g)
  }

  /** Every closed set containing `s` contains its closure. */
  lemma {:induction false} ClosureLeast(objs: seq<BasObject>, s: set<nat>, t: set<nat>)
    requires s <= t && ClosedUnderChildren(objs, t)
    ensures Closure(objs, s) <= t
    decreases |Ids(objs) - s|
  {
    var g := s + Children(objs, s);
    if g != s {
      var x :| x in g && x !in s;
      SubsetCard(Ids(objs) - g, Ids(objs) - s - {x});
      ClosureLeast(objs, g, t);
    }
  }

  /** The ids `remove_object_subtree(id)` deletes: `id` and, transitively, every object whose
      parent is deleted. */
  function SubtreeIds(objs: seq<BasObject>, id: nat): set<nat> {
    Closure(objs, {id})
  }

  /** Ids of the children of `current`, in list order. */
  function ChildIds(objs: seq<BasObject>, current: nat): (r: seq<nat>)
    ensures forall x :: x in r <==> exists o :: o in objs && o.parentId == Some(current) && o.id == x
  {
    if |objs| == 0 then []
    else
      var tail := ChildIds(objs[1..], current);
      assert forall o :: o in objs <==> o == objs[0] || o in objs[1..];
      if objs[0].parentId == Some(current) then [objs[0].id] + tail else tail
  }

  /** The inner loop of `remove_object_subtree`: push the id of every child of `current`. */
  method PushChildren(objs: seq<BasObject>, current: nat, stack: seq<nat>) returns (r: seq<nat>)
    ensures r == stack + ChildIds(objs, current)
  {
    r := stack;
    var i := 0;
    while i < |objs|
      invariant 0 <= i <= |objs|
      invariant r + ChildIds(objs[i..], current) == stack + ChildIds(objs, current)
    {
      assert objs[i..] == [objs[i]] + objs[i + 1..];
      if objs[i].parentId == Some(current) {
        r := r + [objs[i].id];
      }
      i := i + 1;
    }
  }

  /** Every child of a collected id is collected or still waiting on the stack. */
  predicate Frontier(objs: seq<BasObject>, removed: set<nat>, stack: seq<nat>) {
    forall o :: o in objs && o.parentId.Some? && o.parentId.value in removed
      ==> o.id in removed || o.id in stack
  }

  /** Collecting the popped id and pushing its children keeps the frontier property. */
  lemma FrontierStep(objs: seq<BasObject>, removed: set<nat>, rest: seq<nat>, current: nat)
    requires Frontier(objs, removed, rest + [current])
    ensures Frontier(objs, removed + {current}, rest + ChildIds(objs, current))
  {
    var stack := rest + ChildIds(objs, current);
    forall o | o in objs && o.parentId.Some? && o.parentId.value in removed + {current}
      ensures o.id in removed + {current} || o.id in stack
    {
      if o.parentId.value == current {
        assert o.id in ChildIds(objs, current);
      } else if o.id !in removed && o.id != current {
        assert o.id in rest + [current];
        var k :| 0 <= k < |rest| + 1 && (rest + [current])[k] == o.id;
        assert stack[k] == o.id;
      }
    }
  }

  lemma CardDrop(full: set<nat>, removed: set<nat>, x: nat)
    requires x in full && x !in removed
    ensures |full - (removed + {x})| < |full - removed|
  {
    assert full - (removed + {x}) == (full - removed) - {x};
  }

  /** The loop invariant of the traversal: everything collected or waiting lies in the
      subtree, the root is collected or waiting, and no child of a collected id is lost. */
  predicate Collecting(objs: seq<BasObject>, id: nat, full: set<nat>, removed: set<nat>, stack: seq<nat>) {
    removed <= full && (forall k :: 0 <= k < |stack| ==> stack[k] in full)
    && (id in removed || id in stack) && Frontier(objs, removed, stack)
  }

  /** Popping an id that was already collected keeps the invariant. */
  lemma SkipStep(objs: seq<BasObject>, id: nat, full: set<nat>, removed: set<nat>, rest: seq<nat>, current: nat)
    requires Collecting(objs, id, full, removed, rest + [current]) && current in removed
    ensures Collecting(objs, id, full, removed, rest)
  {
    assert forall k :: 0 <= k < |rest| ==> rest[k] == (rest + [current])[k];
    forall o | o in objs && o.parentId.Some? && o.parentId.value in removed
      ensures o.id in removed || o.id in rest
    {
      if o.id !in removed {
        var k :| 0 <= k < |rest| + 1 && (rest + [current])[k] == o.id;
        assert k < |rest|;
        assert rest[k] == o.id;
      }
    }
    if id !in removed {
      var k :| 0 <= k < |rest| + 1 && (rest + [current])[k] == id;
      assert rest[k] == id;
    }
  }

  /** Collecting a new id and pushing its children keeps the invariant and collects more. */
  lemma CollectStep(objs: seq<BasObject>, id: nat, full: set<nat>, removed: set<nat>, rest: seq<nat>, current: nat)
    requires full == SubtreeIds(objs, id)
    requires Collecting(objs, id, full, removed, rest + [current]) && current !in removed
    ensures Collecting(objs, id, full, removed + {current}, rest + ChildIds(objs, current))
    ensures |full - (removed + {current})| < |full - removed|
  {
    var stack := rest + ChildIds(objs, current);
    assert current == (rest + [current])[|rest|];
    FrontierStep(objs, removed, rest, current);
    CardDrop(full, removed, current);
    forall k | 0 <= k < |stack| ensures stack[k] in full {
      if k < |rest| {
        assert stack[k] == (rest + [current])[k];
      } else {
        assert stack[k] in ChildIds(objs, current);
      }
    }
    if id !in removed + {current} {
      var k :| 0 <= k < |rest| + 1 && (rest + [current])[k] == id;
      assert stack[k] == id;
    }
  }

  /** The work-stack traversal of `remove_object_subtree`: pop an id, skip it when already
      collected, otherwise collect it and push the ids of its children in list order. */
  method CollectSubtree(objs: seq<BasObject>, id: nat) returns (removed: set<nat>)
    ensures removed == SubtreeIds(objs, id)
  {
    ghost var full := SubtreeIds(objs, id);
    removed := {};
    var stack := [id];
    while |stack| > 0
      invariant Collecting(objs, id, full, removed, stack)
      decreases |full - removed|, |stack|
    {
      var current := stack[|stack| - 1];
      var rest := stack[..|stack| - 1];
      assert stack == rest + [current];
      if current in removed {
        SkipStep(objs, id, full, removed, rest, current);
        stack := rest;
        continue;
      }
      CollectStep(objs, id, full, removed, rest, current);
      removed := removed + {current};
      stack := PushChildren(objs, current, rest);
    }
    ClosureLeast(objs, {id}, removed);
  }

  /** `Vec::retain(|obj| !to_remove.contains(&obj.id))`: keep the other objects in order. */
  function Without(objs: seq<BasObject>, gone: set<nat>): (r: seq<BasObject>)
    ensures forall o :: o in r <==> o in objs && o.id !in gone
    ensures (forall o :: o in objs ==> o.id !in gone) ==> r == objs
  {
    if |objs| == 0 then []
    else
      var tail := Without(objs[1..], gone);
      assert forall o :: o in objs <==> o == objs[0] || o in objs[1..];
      if objs[0].id in gone then tail else [objs[0]] + tail
  }

  /** `retain` keeps the survivors in their order: filtering a concatenation is filtering each
      part. */
  lemma {:induction false} WithoutAppend(a: seq<BasObject>, b: seq<BasObject>, gone: set<nat>)
    ensures Without(a + b, gone) == Without(a, gone) + Without(b, gone)
    decreases |a|
  {
    if |a| > 0 {
      assert (a + b)[0] == a[0] && (a + b)[1..] == a[1..] + b;
      WithoutAppend(a[1..], b, gone);
      SeqAssoc([a[0]], Without(a[1..], gone), Without(b, gone));
    } else {
      assert a + b == b;
    }
  }

  /** A single object survives exactly when its id is not removed. */
  lemma WithoutSingle(o: BasObject, gone: set<nat>)
    ensures Without([o], gone) == if o.id in gone then [] else [o]
  {
  }

  /** Dropping objects keeps the ids unique. */
  lemma {:induction false} WithoutKeepsUniqueIds(objs: seq<BasObject>, gone: set<nat>)
    requires UniqueIds(objs)
    ensures UniqueIds(Without(objs, gone))
    decreases |objs|
  {
    if |objs| > 0 {
      var rest := objs[1..];
      assert UniqueIds(rest) by {
        forall i, j | 0 <= i < j < |rest| ensures rest[i].id != rest[j].id {
          assert rest[i] == objs[i + 1] && rest[j] == objs[j + 1];
        }
      }
      WithoutKeepsUniqueIds(rest, gone);
      if objs[0].id !in gone {
        assert objs[0].id !in Ids(rest) by {
          forall o | o in rest ensures o.id != objs[0].id {
            var k :| 0 <= k < |rest| && rest[k] == o;
            assert objs[k + 1] == o;
          }
        }
        FreshHeadKeepsUnique(objs[0], Without(rest, gone), rest);
      }
    }
  }

  /** A unique list stays unique when an object whose id is not in `outer` goes in front,
      provided the list's objects come from `outer`. */
  lemma FreshHeadKeepsUnique(x: BasObject, tail: seq<BasObject>, outer: seq<BasObject>)
    requires UniqueIds(tail) && x.id !in Ids(outer)
    requires forall o :: o in tail ==> o in outer
    ensures UniqueIds([x] + tail)
  {
    var r := [x] + tail;
    forall i, j | 0 <= i < j < |r| ensures r[i].id != r[j].id {
      if i == 0 {
        assert r[j] == tail[j - 1];
        assert r[j] in outer;
      } else {
        assert r[i] == tail[i - 1] && r[j] == tail[j - 1];
      }
    }
  }

  /** `self.project.objects.first().map(|o| o.id)` */
  function FirstId(objs: seq<BasObject>): (r: Option<nat>)
    ensures r.Some? ==> r.value in Ids(objs)
    ensures r.None? <==> objs == []
  {
    if |objs| == 0 then None else Some(objs[0].id)
  }

  /** The tree after `remove_object_subtree(id)`: the subtree's objects are gone, the others
      stay in order, and a deleted selection falls back to the first remaining object. */
  function RemoveSubtree(t: Tree, id: nat): Tree {
    var gone := SubtreeIds(t.objects, id);
    var rest := Without(t.objects, gone);
    Tree(rest, t.nextId,
         if t.selected.Some? && t.selected.value in gone then FirstId(rest) else t.selected)
  }

  /** Exactly the objects outside the subtree remain; the subtree holds `id` and is the
      least child-closed set that does. */
  lemma RemoveSubtreeExact(t: Tree, id: nat, s: set<nat>)
    requires id in s && ClosedUnderChildren(t.objects, s)
    ensures var gone := SubtreeIds(t.objects, id);
            id in gone && gone <= s
            && (forall o :: o in RemoveSubtree(t, id).objects <==> o in t.objects && o.id !in gone)
  {
    ClosureLeast(t.objects, {id}, s);
  }

  /** No remaining object names a deleted object as its parent. */
  lemma RemoveSubtreeLeavesNoOrphans(t: Tree, id: nat)
    ensures forall o :: o in RemoveSubtree(t, id).objects && o.parentId.Some?
              ==> o.parentId.value !in SubtreeIds(t.objects, id)
  {
  }

  /** `remove_object_subtree` keeps the tree coherent. */
  lemma RemoveSubtreePreservesCoherent(t: Tree, id: nat)
    requires Coherent(t)
    ensures Coherent(RemoveSubtree(t, id))
  {
    var gone := SubtreeIds(t.objects, id);
    var r := RemoveSubtree(t, id);
    WithoutKeepsUniqueIds(t.objects, gone);
    forall o | o in r.objects && o.parentId.Some?
      ensures o.parentId.value in Ids(r.objects)
    {
      var p := o.parentId.value;
      assert p !in gone;
      assert p in Ids(t.objects);
      var q :| q in t.objects && q.id == p;
      assert q in r.objects;
    }
    if t.selected.Some? && t.selected.value !in gone {
      var q :| q in t.objects && q.id == t.selected.value;
      assert q in r.objects;
    }
  }

  /** The UI's delete rule: an existing object may be deleted unless it is a Building. */
  predicate CanDeleteObject(objs: seq<BasObject>, id: nat) {
    Lookup(objs, id).Some? && Lookup(objs, id).value.objectType != Building
  }

  /** In a coherent tree, deleting an object the UI allows to delete never removes a
      Building, while the unguarded graph operation removes a Building it is given. */
  lemma GuardedDeleteKeepsBuildings(t: Tree, id: nat)
    requires Coherent(t)
    ensures CanDeleteObject(t.objects, id) ==>
              forall b :: b in t.objects && b.objectType == Building ==> b in RemoveSubtree(t, id).objects
    ensures Lookup(t.objects, id).Some? && Lookup(t.objects, id).value.objectType == Building ==>
              Lookup(t.objects, id).value !in RemoveSubtree(t, id).objects
  {
    if CanDeleteObject(t.objects, id) {
      var nonBuildings := set o | o in t.objects && o.objectType != Building :: o.id;
      forall o | o in t.objects && o.parentId.Some? && o.parentId.value in nonBuildings
        ensures o.id in nonBuildings
      {
        var q :| q in t.objects && q.objectType != Building && q.id == o.parentId.value;
        assert CanBeChildOf(o.objectType, q.objectType);
      }
      assert id in nonBuildings;
      ClosureLeast(t.objects, {id}, nonBuildings);
      forall b | b in t.objects && b.objectType == Building
        ensures b in RemoveSubtree(t, id).objects
      {
        if b.id in nonBuildings {
          var q :| q in t.objects && q.objectType != Building && q.id == b.id;
          UniqueLookup(t.objects, q);
          UniqueLookup(t.objects, b);
        }
      }
    }
  }
}
