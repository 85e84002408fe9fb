/** `normalize_loaded_project`, the repair pass run on a project just read from a file:
    drop objects whose parent is missing (one level), drop tokens onto missing objects,
    clear equipment property groups, re-sync every equipment from its template, advance
    `next_id` past every id and repair the selection. */
module Repair {
  import opened Domain
  import opened Graph
  import opened Subtree
  import opened Templates
  import opened Sync
  import opened Overlay

  /** `objects.retain(|o| o.parent_id.is_none_or(|p| valid.contains(&p)))` */
  function PruneOrphans(objs: seq<BasObject>, valid: set<nat>): (r: seq<BasObject>)
    ensures |r| <= |objs|
    ensures forall o :: o in r <==> o in objs && (o.parentId.None? || o.parentId.value in valid)
  {
    if |objs| == 0 then []
    else
      var tail := PruneOrphans(objs[1..], valid);
      assert forall o :: o in objs <==> o == objs[0] || o in objs[1..];
      var o := objs[0];
      if o.parentId.None? || o.parentId.value in valid then [o] + tail else tail
  }

  /** The pruning keeps the survivors in their order, which decides the first object after a
      load: pruning a concatenation is pruning each part. */
  lemma {:induction false} PruneOrphansAppend(a: seq<BasObject>, b: seq<BasObject>, valid: set<nat>)
    ensures PruneOrphans(a + b, valid) == PruneOrphans(a, valid) + PruneOrphans(b, valid)
    decreases |a|
  {
    if |a| > 0 {
      assert (a + b)[0] == a[0] && (a + b)[1..] == a[1..] + b;
      PruneOrphansAppend(a[1..], b, valid);
      SeqAssoc([a[0]], PruneOrphans(a[1..], valid), PruneOrphans(b, valid));
    } else {
      assert a + b == b;
    }
  }

  /** A single object survives exactly when it is a root or its parent is in `valid`. */
  lemma PruneOrphansSingle(o: BasObject, valid: set<nat>)
    ensures PruneOrphans([o], valid) == if o.parentId.None? || o.parentId.value in valid then [o] else []
  {
  }

  /** The loop that clears `property_groups` of every equipment. */
  function ClearEquipmentGroups(objs: seq<BasObject>): (r: seq<BasObject>)
    ensures SameSkeleton(objs, r)
    ensures forall i :: 0 <= i < |r| ==>
              r[i] == (if objs[i].objectType == Equipment then objs[i].(propertyGroups := []) else objs[i])
  {
    seq(|objs|, i requires 0 <= i < |objs| =>
      if objs[i].objectType == Equipment then objs[i].(propertyGroups := []) else objs[i])
  }

  /** The ids of the equipment, in list order: the `equipment_ids` collected before syncing. */
  function EquipmentIds(objs: seq<BasObject>): seq<nat> {
    if |objs| == 0 then []
    else (if objs[0].objectType == Equipment then [objs[0].id] else []) + EquipmentIds(objs[1..])
  }

  /** `for eq_id in ids { self.sync_equipment_from_template(eq_id) }` */
  function SyncAll(t: Tree, templates: seq<EquipmentTemplate>, ids: seq<nat>): Tree
    decreases |ids|
  {
    if |ids| == 0 then t else SyncAll(SyncEquipment(t, templates, ids[0]), templates, ids[1..])
  }

  /** `objects.iter().map(|o| o.id).max().unwrap_or(0)` */
  function MaxId(objs: seq<BasObject>): (r: nat)
    ensures forall o :: o in objs ==> o.id <= r
    ensures objs != [] ==> r in Ids(objs)
  {
    if |objs| == 0 then 0
    else
      var m := MaxId(objs[1..]);
      assert forall o :: o in objs <==> o == objs[0] || o in objs[1..];
      if objs[0].id >= m then objs[0].id else m
  }

  /** The repaired tree and tokens. */
  datatype Repaired = Repaired(tree: Tree, nodes: seq<OverlayNode>)

  /** The last two steps of the repair: raise `next_id` above the largest id, and move a
      selection that is not in `valid` to the first object. */
  function Finalize(synced: Tree, valid: set<nat>): Tree {
    var next := if synced.nextId >= MaxId(synced.objects) + 1 then synced.nextId else MaxId(synced.objects) + 1;
    var sel := if synced.selected.Some? && synced.selected.value !in valid then FirstId(synced.objects)
               else synced.selected;
    Tree(synced.objects, next, sel)
  }

  /** `normalize_loaded_project` on the loaded objects, `next_id`, the application's current
      selection and the loaded tokens; `templates` is the project's template list at that
      moment. */
  function NormalizeLoaded(t: Tree, nodes: seq<OverlayNode>, templates: seq<EquipmentTemplate>): Repaired {
    var kept := PruneOrphans(t.objects, Ids(t.objects));
    var valid := Ids(kept);
    var cleared := ClearEquipmentGroups(kept);
    var synced := SyncAll(Tree(cleared, t.nextId, t.selected), templates, EquipmentIds(kept));
    Repaired(Finalize(synced, valid), TokensOnto(nodes, valid))
  }

  // ---- What syncing does to ids and the counter ----

  /** A sync keeps every id and never lowers `next_id`. */
  lemma SyncGrowsIds(t: Tree, templates: seq<EquipmentTemplate>, id: nat)
    ensures Ids(t.objects) <= Ids(SyncEquipment(t, templates, id).objects)
    ensures SyncEquipment(t, templates, id).nextId >= t.nextId
  {
    if IsEquipmentAt(t.objects, id) && Lookup(t.objects, id).value.templateName != []
       && FindTemplate(templates, Lookup(t.objects, id).value.templateName).Some?
    {
      var eq := Lookup(t.objects, id).value;
      var tpl := FindTemplate(templates, eq.templateName).value;
      var objs := SyncedObjects(t, tpl, id);
      var ms := Missing(tpl.points, PointChildNames(objs, id));
      SyncEffect(t, templates, id);
      SyncedSkeleton(t, tpl, id);
      SkeletonSameIds(t.objects, objs);
      AppendKeepsIds(objs, PointObjects(id, t.nextId, ms));
    } else {
      SyncNoOp(t, templates, id);
    }
  }

  lemma {:induction false} SyncAllGrowsIds(t: Tree, templates: seq<EquipmentTemplate>, ids: seq<nat>)
    ensures Ids(t.objects) <= Ids(SyncAll(t, templates, ids).objects)
    ensures SyncAll(t, templates, ids).nextId >= t.nextId
    decreases |ids|
  {
    if |ids| > 0 {
      SyncGrowsIds(t, templates, ids[0]);
      SyncAllGrowsIds(SyncEquipment(t, templates, ids[0]), templates, ids[1..]);
    }
  }

  /** With no templates, syncing changes nothing. */
  lemma {:induction false} SyncAllWithoutTemplates(t: Tree, ids: seq<nat>)
    ensures SyncAll(t, [], ids) == t
    decreases |ids|
  {
    if |ids| > 0 {
      SyncNoOp(t, [], ids[0]);
      SyncAllWithoutTemplates(t, ids[1..]);
    }
  }

  // ---- Properties of the repair ----

  /** After the repair `next_id` is above every object id and not below its loaded value. */
  lemma NormalizeAdvancesNextId(t: Tree, nodes: seq<OverlayNode>, templates: seq<EquipmentTemplate>)
    ensures var r := NormalizeLoaded(t, nodes, templates).tree;
            IdsBelow(r.objects, r.nextId) && r.nextId >= t.nextId
  {
    var kept := PruneOrphans(t.objects, Ids(t.objects));
    var cleared := ClearEquipmentGroups(kept);
    SyncAllGrowsIds(Tree(cleared, t.nextId, t.selected), templates, EquipmentIds(kept));
  }

  /** After the repair every token refers to a listed object. */
  lemma NormalizeTokensResolve(t: Tree, nodes: seq<OverlayNode>, templates: seq<EquipmentTemplate>)
    ensures var r := NormalizeLoaded(t, nodes, templates);
            TokensResolve(r.nodes, r.tree.objects)
  {
    var kept := PruneOrphans(t.objects, Ids(t.objects));
    var cleared := ClearEquipmentGroups(kept);
    var start := Tree(cleared, t.nextId, t.selected);
    SyncAllGrowsIds(start, templates, EquipmentIds(kept));
    var r := NormalizeLoaded(t, nodes, templates);
    SkeletonSameIds(kept, cleared);
    TokensOntoResolve(nodes, kept);
    forall k | 0 <= k < |r.nodes| ensures r.nodes[k].objectId in Ids(r.tree.objects) {
      assert r.nodes[k].objectId in Ids(kept);
    }
  }

  /** On the load path the template list is empty, so the repair keeps exactly the objects
      whose parent was listed in the file, in order, with equipment property groups cleared;
      no object whose parent was missing survives. */
  lemma NormalizeOnLoad(t: Tree, nodes: seq<OverlayNode>)
    ensures var r := NormalizeLoaded(t, nodes, []).tree;
            r.objects == ClearEquipmentGroups(PruneOrphans(t.objects, Ids(t.objects)))
            && (forall o :: o in r.objects && o.parentId.Some? ==> o.parentId.value in Ids(t.objects))
            && (forall o :: o in r.objects && o.objectType == Equipment ==> o.propertyGroups == [])
  {
    var kept := PruneOrphans(t.objects, Ids(t.objects));
    var cleared := ClearEquipmentGroups(kept);
    SyncAllWithoutTemplates(Tree(cleared, t.nextId, t.selected), EquipmentIds(kept));
    var r := NormalizeLoaded(t, nodes, []).tree;
    forall o | o in r.objects && o.parentId.Some? ensures o.parentId.value in Ids(t.objects) {
      var j :| 0 <= j < |cleared| && cleared[j] == o;
      assert kept[j] in kept;
    }
  }

  /** What the repair on load guarantees: `next_id` is fresh and has not gone down, every
      token refers to a kept object, and every kept object's parent was listed in the file. */
  lemma LoadRepairGuarantees(t: Tree, nodes: seq<OverlayNode>)
    ensures var r := NormalizeLoaded(t, nodes, []);
            IdsBelow(r.tree.objects, r.tree.nextId) && r.tree.nextId >= t.nextId
            && TokensResolve(r.nodes, r.tree.objects)
            && forall o :: o in r.tree.objects && o.parentId.Some? ==> o.parentId.value in Ids(t.objects)
  {
    NormalizeAdvancesNextId(t, nodes, []);
    NormalizeTokensResolve(t, nodes, []);
    NormalizeOnLoad(t, nodes);
  }

  /** The pruning is one level only: when an orphan is dropped, its child survives with a
      parent that is no longer listed. */
  lemma NormalizeLeavesDanglingGrandchild(orphan: BasObject, child: BasObject, nextId: nat)
    requires orphan.parentId.Some? && orphan.parentId.value != orphan.id
    requires orphan.parentId.value != child.id
    requires child.parentId == Some(orphan.id) && child.id != orphan.id
    ensures var r := NormalizeLoaded(Tree([orphan, child], nextId, None), [], []).tree;
            |r.objects| == 1 && r.objects[0].id == child.id && !ParentsExist(r.objects)
  {
    var t := Tree([orphan, child], nextId, None);
    NormalizeOnLoad(t, []);
    PruneDropsOnlyOrphan(orphan, child);
    var c := ClearEquipmentGroups([child])[0];
    assert orphan.id !in Ids(ClearEquipmentGroups([child])) by {
      forall o | o in ClearEquipmentGroups([child]) ensures o.id != orphan.id {
        assert o == c;
      }
    }
  }

  lemma PruneDropsOnlyOrphan(orphan: BasObject, child: BasObject)
    requires orphan.parentId.Some? && orphan.parentId.value != orphan.id
    requires orphan.parentId.value != child.id
    requires child.parentId == Some(orphan.id) && child.id != orphan.id
    ensures PruneOrphans([orphan, child], Ids([orphan, child])) == [child]
  {
    var objs := [orphan, child];
    assert Ids(objs) == {orphan.id, child.id};
    assert objs[1..] == [child];
    assert PruneOrphans([child][1..], Ids(objs)) == [];
  }

  /** A selection that no longer names a kept object falls back to the first object. */
  lemma NormalizeRepairsSelection(t: Tree, nodes: seq<OverlayNode>)
    ensures var r := NormalizeLoaded(t, nodes, []).tree;
            r.selected.Some? ==> r.selected.value in Ids(r.objects)
  {
    NormalizeOnLoad(t, nodes);
    var kept := PruneOrphans(t.objects, Ids(t.objects));
    var cleared := ClearEquipmentGroups(kept);
    SyncAllWithoutTemplates(Tree(cleared, t.nextId, t.selected), EquipmentIds(kept));
    var r := NormalizeLoaded(t, nodes, []).tree;
    if r.selected.Some? && r.selected == t.selected {
      var o :| o in kept && o.id == t.selected.value;
      var j :| 0 <= j < |kept| && kept[j] == o;
      assert cleared[j] in cleared;
    }
  }
}
