/** `sync_equipment_from_template`: copy a template's type, tag and hour mode onto an
    equipment and create the template's points that the equipment does not have yet. */
module Sync {
  import opened Domain
  import opened Text
  import opened Graph
  import opened Templates

  /** The field copy: the template's type unless the type is overridden, the tag
      `"{template type}-{id}"` when the tag is blank, the template's mode unless the hours
      are overridden. */
  function SyncFields(o: BasObject, t: EquipmentTemplate, id: nat): (r: BasObject)
    ensures r.id == o.id && r.parentId == o.parentId && r.objectType == o.objectType
    ensures r.name == o.name && r.templateName == o.templateName
    ensures r.equipmentType == (if o.equipmentTypeOverride then o.equipmentType else t.equipmentType)
    ensures r.hoursOverrideMode == (if o.hoursOverride then o.hoursOverrideMode else t.hourMode)
    ensures IsBlank(o.equipmentTag) ==> r.equipmentTag == t.equipmentType + "-" + NatToString(id)
    ensures !IsBlank(o.equipmentTag) ==> r.equipmentTag == o.equipmentTag
  {
    o.(equipmentType := if o.equipmentTypeOverride then o.equipmentType else t.equipmentType,
       equipmentTag := if IsBlank(o.equipmentTag) then t.equipmentType + "-" + NatToString(id) else o.equipmentTag,
       hoursOverrideMode := if o.hoursOverride then o.hoursOverrideMode else t.hourMode)
  }

  /** A generated tag ends in a digit, so it is never blank. */
  lemma GeneratedTagNotBlank(prefix: string, id: nat)
    ensures !IsBlank(prefix + "-" + NatToString(id))
  {
    var s := prefix + "-" + NatToString(id);
    assert s[|prefix|] == '-';
    NotBlankWhenSolid(s, |prefix|);
  }

  /** After the copy the fields are already in sync: copying again changes nothing. */
  lemma SyncFieldsIdempotent(o: BasObject, t: EquipmentTemplate, id: nat)
    ensures SyncFields(SyncFields(o, t, id), t, id) == SyncFields(o, t, id)
  {
    if IsBlank(o.equipmentTag) {
      GeneratedTagNotBlank(t.equipmentType, id);
    }
  }

  /** The names of the Point children of `id`: the `existing_points` snapshot. */
  function PointChildNames(objs: seq<BasObject>, id: nat): set<string> {
    set o | o in objs && o.parentId == Some(id) && o.objectType == Point :: o.name
  }

  /** The object the loop leaves at the end of the list for a template point. */
  function PointObject(parent: nat, newId: nat, p: TemplatePoint): BasObject {
    NewObject(Point, Some(parent), newId).(name := p.name, pointKind := p.kind, propertyGroups := [])
  }

  /** The objects the loop appends for `ms`, with consecutive ids from `start`. */
  function PointObjects(parent: nat, start: nat, ms: seq<TemplatePoint>): (r: seq<BasObject>)
    ensures |r| == |ms|
    decreases |ms|
  {
    if |ms| == 0 then [] else [PointObject(parent, start, ms[0])] + PointObjects(parent, start + 1, ms[1..])
  }

  /** The `k`-th appended object is the `k`-th missing point under id `start + k`. */
  lemma {:induction false} PointObjectsAt(parent: nat, start: nat, ms: seq<TemplatePoint>, k: nat)
    requires k < |ms|
    ensures PointObjects(parent, start, ms)[k] == PointObject(parent, start + k, ms[k])
    decreases k
  {
    if k > 0 {
      PointObjectsAt(parent, start + 1, ms[1..], k - 1);
    }
  }

  /** One step of the loop: `add_object(Point, Some(id))`, then rename the last object of the
      list, set its kind and clear its property groups. */
  function AddTemplatePoint(t: Tree, id: nat, p: TemplatePoint): Tree {
    var t1 := AddObject(t, Point, Some(id));
    var n := |t1.objects|;
    if n == 0 then t1
    else t1.(objects := t1.objects[n - 1 := t1.objects[n - 1].(name := p.name, pointKind := p.kind, propertyGroups := [])])
  }

  /** The loop over the template's points, skipping names in the snapshot `existing`. */
  function AddMissingPoints(t: Tree, id: nat, points: seq<TemplatePoint>, existing: set<string>): Tree
    decreases |points|
  {
    if |points| == 0 then t
    else
      var t1 := if points[0].name in existing then t else AddTemplatePoint(t, id, points[0]);
      AddMissingPoints(t1, id, points[1..], existing)
  }

  /** The template points the loop creates: those whose name is not in the snapshot, in
      order and with repeats (the snapshot is not updated inside the loop). */
  function Missing(points: seq<TemplatePoint>, existing: set<string>): seq<TemplatePoint>
  {
    if |points| == 0 then []
    else (if points[0].name in existing then [] else [points[0]]) + Missing(points[1..], existing)
  }

  /** The missing points are the template points whose name is not in the snapshot. */
  lemma {:induction false} MissingMembers(points: seq<TemplatePoint>, existing: set<string>, p: TemplatePoint)
    ensures p in Missing(points, existing) <==> p in points && p.name !in existing
    decreases |points|
  {
    if |points| > 0 {
      MissingMembers(points[1..], existing, p);
      assert p in points <==> p == points[0] || p in points[1..];
    }
  }

  /** `sync_equipment_from_template(id)` over the tree and the project's template list. */
  function SyncEquipment(t: Tree, templates: seq<EquipmentTemplate>, id: nat): Tree {
    match Lookup(t.objects, id)
    case None => t
    case Some(eq) =>
      if eq.objectType != Equipment || eq.templateName == [] then t
      else match FindTemplate(templates, eq.templateName)
        case None => t
        case Some(tpl) =>
          var i := IndexOf(t.objects, id).value;
          var objs := t.objects[i := SyncFields(t.objects[i], tpl, id)];
          AddMissingPoints(t.(objects := objs), id, tpl.points, PointChildNames(objs, id))
  }

  /** The equipment is the object `id` finds. */
  predicate IsEquipmentAt(objs: seq<BasObject>, id: nat) {
    Lookup(objs, id).Some? && Lookup(objs, id).value.objectType == Equipment
  }

  /** Adding a point under an equipment always succeeds, so the renamed last object is the
      new point. */
  lemma AddTemplatePointShape(t: Tree, id: nat, p: TemplatePoint)
    requires IsEquipmentAt(t.objects, id)
    ensures AddTemplatePoint(t, id, p) == Tree(t.objects + [PointObject(id, t.nextId, p)], t.nextId + 1, Some(t.nextId))
    ensures IsEquipmentAt(t.objects + [PointObject(id, t.nextId, p)], id)
    ensures Lookup(t.objects + [PointObject(id, t.nextId, p)], id) == Lookup(t.objects, id)
  {
    var x := PointObject(id, t.nextId, p);
    assert (t.objects + [NewObject(Point, Some(id), t.nextId)])[|t.objects| := x] == t.objects + [x];
    IndexOfAppend(t.objects, x, id);
  }

  /** Unfolding the loop once at a point it creates. */
  lemma AddMissingStep(t: Tree, id: nat, points: seq<TemplatePoint>, existing: set<string>)
    requires |points| > 0 && points[0].name !in existing
    ensures AddMissingPoints(t, id, points, existing)
            == AddMissingPoints(AddTemplatePoint(t, id, points[0]), id, points[1..], existing)
    ensures Missing(points, existing) == [points[0]] + Missing(points[1..], existing)
  {
  }

  /** Unfolding the loop once at a point it skips. */
  lemma AddMissingSkip(t: Tree, id: nat, points: seq<TemplatePoint>, existing: set<string>)
    requires |points| > 0 && points[0].name in existing
    ensures AddMissingPoints(t, id, points, existing) == AddMissingPoints(t, id, points[1..], existing)
    ensures Missing(points, existing) == Missing(points[1..], existing)
  {
  }

  lemma PointObjectsCons(parent: nat, start: nat, p: TemplatePoint, rest: seq<TemplatePoint>)
    ensures PointObjects(parent, start, [p] + rest) == [PointObject(parent, start, p)] + PointObjects(parent, start + 1, rest)
  {
    assert ([p] + rest)[1..] == rest;
  }

  /** The closed form of the loop: append the objects for `ms`, move `next_id` past them and
      select the last one, if any. */
  function AppendPoints(t: Tree, id: nat, ms: seq<TemplatePoint>): Tree {
    Tree(t.objects + PointObjects(id, t.nextId, ms), t.nextId + |ms|,
         if |ms| == 0 then t.selected else Some(t.nextId + |ms| - 1))
  }

  /** Appending one point and then the rest is appending all of them. */
  lemma AppendPointsCons(t: Tree, id: nat, p: TemplatePoint, rest: seq<TemplatePoint>)
    ensures AppendPoints(Tree(t.objects + [PointObject(id, t.nextId, p)], t.nextId + 1, Some(t.nextId)), id, rest)
            == AppendPoints(t, id, [p] + rest)
  {
    PointObjectsCons(id, t.nextId, p, rest);
    SeqAssoc(t.objects, [PointObject(id, t.nextId, p)], PointObjects(id, t.nextId + 1, rest));
  }

  /** The loop appends, in order, one new Point child of `id` per missing template point,
      with consecutive ids from `next_id`, and selects the last one it adds. */
  lemma {:induction false} AddMissingShape(t: Tree, id: nat, points: seq<TemplatePoint>, existing: set<string>)
    requires IsEquipmentAt(t.objects, id)
    ensures AddMissingPoints(t, id, points, existing) == AppendPoints(t, id, Missing(points, existing))
    decreases |points|
  {
    if |points| == 0 {
      assert t.objects + [] == t.objects;
    } else {
      var p := points[0];
      if p.name in existing {
        AddMissingSkip(t, id, points, existing);
        AddMissingShape(t, id, points[1..], existing);
      } else {
        AddMissingStep(t, id, points, existing);
        AddTemplatePointShape(t, id, p);
        AddMissingShape(AddTemplatePoint(t, id, p), id, points[1..], existing);
        AppendPointsCons(t, id, p, Missing(points[1..], existing));
      }
    }
  }

  /** Appending objects after the equipment leaves `id` pointing at it. */
  lemma {:induction false} AppendKeepsLookup(objs: seq<BasObject>, extra: seq<BasObject>, id: nat)
    requires id in Ids(objs)
    ensures Lookup(objs + extra, id) == Lookup(objs, id)
    decreases |extra|
  {
    if |extra| > 0 {
      var init := objs + extra[..|extra| - 1];
      assert objs + extra == init + [extra[|extra| - 1]];
      assert objs + extra[..|extra| - 1] == init;
      AppendKeepsLookup(objs, extra[..|extra| - 1], id);
      var o := Lookup(objs, id).value;
      assert o in init by {
        var k :| 0 <= k < |objs| && objs[k] == o;
        assert init[k] == o;
      }
      IndexOfAppend(init, extra[|extra| - 1], id);
    } else {
      assert objs + extra == objs;
    }
  }

  /** Every template point name ends up as the name of a Point child of `id`: it was in the
      snapshot, or the loop created it. */
  lemma AddMissingComplete(t: Tree, id: nat, points: seq<TemplatePoint>)
    requires IsEquipmentAt(t.objects, id)
    ensures var r := AddMissingPoints(t, id, points, PointChildNames(t.objects, id));
            forall p :: p in points ==> p.name in PointChildNames(r.objects, id)
  {
    var existing := PointChildNames(t.objects, id);
    var r := AddMissingPoints(t, id, points, existing);
    var ms := Missing(points, existing);
    AddMissingShape(t, id, points, existing);
    assert r.objects == t.objects + PointObjects(id, t.nextId, ms);
    forall p | p in points ensures p.name in PointChildNames(r.objects, id) {
      if p.name in existing {
        var o :| o in t.objects && o.parentId == Some(id) && o.objectType == Point && o.name == p.name;
        var j :| 0 <= j < |t.objects| && t.objects[j] == o;
        assert r.objects[j] == o;
      } else {
        MissingMembers(points, existing, p);
        var k :| 0 <= k < |ms| && ms[k] == p;
        var added := PointObjects(id, t.nextId, ms);
        PointObjectsAt(id, t.nextId, ms, k);
        assert r.objects[|t.objects| + k] == added[k];
      }
    }
  }

  /** When every name is in the snapshot the loop changes nothing. */
  lemma {:induction false} AddMissingNothing(t: Tree, id: nat, points: seq<TemplatePoint>, existing: set<string>)
    requires forall p :: p in points ==> p.name in existing
    ensures AddMissingPoints(t, id, points, existing) == t
    decreases |points|
  {
    if |points| > 0 {
      assert points[0] in points;
      assert forall p :: p in points[1..] ==> p in points;
      AddMissingNothing(t, id, points[1..], existing);
    }
  }

  /** Nothing happens for a missing id, an object that is not Equipment, an empty template
      name or a name no template has. */
  lemma SyncNoOp(t: Tree, templates: seq<EquipmentTemplate>, id: nat)
    requires Lookup(t.objects, id).None?
          || Lookup(t.objects, id).value.objectType != Equipment
          || Lookup(t.objects, id).value.templateName == []
          || FindTemplate(templates, Lookup(t.objects, id).value.templateName).None?
    ensures SyncEquipment(t, templates, id) == t
  {
  }

  /** The equipment entry after the field copy; `IndexOf` still finds it at the same place. */
  lemma SyncedEntry(t: Tree, tpl: EquipmentTemplate, id: nat)
    requires IsEquipmentAt(t.objects, id)
    ensures var i := IndexOf(t.objects, id).value;
            var objs := t.objects[i := SyncFields(t.objects[i], tpl, id)];
            IsEquipmentAt(objs, id) && Lookup(objs, id) == Some(SyncFields(t.objects[i], tpl, id))
  {
    var i := IndexOf(t.objects, id).value;
    var objs := t.objects[i := SyncFields(t.objects[i], tpl, id)];
    IndexOfSameIds(t.objects, objs, id);
  }

  /** The field copy keeps every id, parent and kind. */
  lemma SyncedSkeleton(t: Tree, tpl: EquipmentTemplate, id: nat)
    requires IsEquipmentAt(t.objects, id)
    ensures var i := IndexOf(t.objects, id).value;
            SameSkeleton(t.objects, t.objects[i := SyncFields(t.objects[i], tpl, id)])
  {
    var i := IndexOf(t.objects, id).value;
    var x := SyncFields(t.objects[i], tpl, id);
    UpdateKeepsSkeleton(t.objects, i, x);
  }

  /** Replacing one entry by an object with the same id, parent and kind keeps the skeleton. */
  lemma UpdateKeepsSkeleton(objs: seq<BasObject>, i: nat, x: BasObject)
    requires i < |objs|
    requires x.id == objs[i].id && x.parentId == objs[i].parentId && x.objectType == objs[i].objectType
    ensures SameSkeleton(objs, objs[i := x])
  {
  }

  /** The entry the field copy leaves and the snapshot the point loop uses. */
  function SyncedObjects(t: Tree, tpl: EquipmentTemplate, id: nat): seq<BasObject>
    requires IsEquipmentAt(t.objects, id)
  {
    var i := IndexOf(t.objects, id).value;
    t.objects[i := SyncFields(t.objects[i], tpl, id)]
  }

  /** A sync of an equipment with a known template is the field copy followed by the point
      loop over the template's points. */
  lemma SyncUnfold(t: Tree, templates: seq<EquipmentTemplate>, id: nat)
    requires IsEquipmentAt(t.objects, id)
    requires Lookup(t.objects, id).value.templateName != []
    requires FindTemplate(templates, Lookup(t.objects, id).value.templateName).Some?
    ensures var tpl := FindTemplate(templates, Lookup(t.objects, id).value.templateName).value;
            var objs := SyncedObjects(t, tpl, id);
            SyncEquipment(t, templates, id)
            == AddMissingPoints(t.(objects := objs), id, tpl.points, PointChildNames(objs, id))
  {
  }

  /** After a sync of an equipment with a known template: the equipment's fields follow the
      copy rules, the new objects are exactly the missing points appended in order, and
      `next_id` has moved past them. */
  lemma SyncEffect(t: Tree, templates: seq<EquipmentTemplate>, id: nat)
    requires IsEquipmentAt(t.objects, id)
    requires Lookup(t.objects, id).value.templateName != []
    requires FindTemplate(templates, Lookup(t.objects, id).value.templateName).Some?
    ensures var eq := Lookup(t.objects, id).value;
            var tpl := FindTemplate(templates, eq.templateName).value;
            var r := SyncEquipment(t, templates, id);
            var objs := SyncedObjects(t, tpl, id);
            var ms := Missing(tpl.points, PointChildNames(objs, id));
            Lookup(r.objects, id) == Some(SyncFields(eq, tpl, id))
            && r.objects == objs + PointObjects(id, t.nextId, ms)
            && r.nextId == t.nextId + |ms|
  {
    var eq := Lookup(t.objects, id).value;
    var tpl := FindTemplate(templates, eq.templateName).value;
    var objs := SyncedObjects(t, tpl, id);
    SyncUnfold(t, templates, id);
    SyncedEntry(t, tpl, id);
    AddMissingShape(t.(objects := objs), id, tpl.points, PointChildNames(objs, id));
    AppendKeepsLookup(objs, PointObjects(id, t.nextId, Missing(tpl.points, PointChildNames(objs, id))), id);
  }

  /** After a sync every template point name is the name of a Point child of the equipment. */
  lemma SyncComplete(t: Tree, templates: seq<EquipmentTemplate>, id: nat)
    requires IsEquipmentAt(t.objects, id)
    requires Lookup(t.objects, id).value.templateName != []
    requires FindTemplate(templates, Lookup(t.objects, id).value.templateName).Some?
    ensures var tpl := FindTemplate(templates, Lookup(t.objects, id).value.templateName).value;
            forall p :: p in tpl.points ==> p.name in PointChildNames(SyncEquipment(t, templates, id).objects, id)
  {
    var tpl := FindTemplate(templates, Lookup(t.objects, id).value.templateName).value;
    SyncUnfold(t, templates, id);
    SyncedEntry(t, tpl, id);
    AddMissingComplete(t.(objects := SyncedObjects(t, tpl, id)), id, tpl.points);
  }

  /** A field copy that changes nothing leaves the list as it is. */
  lemma SyncedObjectsUnchanged(r: Tree, tpl: EquipmentTemplate, id: nat)
    requires IsEquipmentAt(r.objects, id)
    requires SyncFields(Lookup(r.objects, id).value, tpl, id) == Lookup(r.objects, id).value
    ensures SyncedObjects(r, tpl, id) == r.objects
  {
  }

  /** Syncing twice is syncing once: the second run copies nothing new and creates no object. */
  lemma SyncIdempotent(t: Tree, templates: seq<EquipmentTemplate>, id: nat)
    ensures SyncEquipment(SyncEquipment(t, templates, id), templates, id) == SyncEquipment(t, templates, id)
  {
    if IsEquipmentAt(t.objects, id) && Lookup(t.objects, id).value.templateName != []
       && FindTemplate(templates, Lookup(t.objects, id).value.templateName).Some?
    {
      var r := SyncEquipment(t, templates, id);
      var eq := Lookup(t.objects, id).value;
      var tpl := FindTemplate(templates, eq.templateName).value;
      SyncEffect(t, templates, id);
      SyncComplete(t, templates, id);
      SyncFieldsIdempotent(eq, tpl, id);
      SyncUnfold(r, templates, id);
      SyncedObjectsUnchanged(r, tpl, id);
      assert r.(objects := r.objects) == r;
      AddMissingNothing(r, id, tpl.points, PointChildNames(r.objects, id));
    } else {
      SyncNoOp(t, templates, id);
    }
  }

  /** A sync keeps the tree coherent. */
  lemma SyncPreservesCoherent(t: Tree, templates: seq<EquipmentTemplate>, id: nat)
    requires Coherent(t)
    ensures Coherent(SyncEquipment(t, templates, id))
  {
    if IsEquipmentAt(t.objects, id) && Lookup(t.objects, id).value.templateName != []
       && FindTemplate(templates, Lookup(t.objects, id).value.templateName).Some?
    {
      var eq := Lookup(t.objects, id).value;
      var tpl := FindTemplate(templates, eq.templateName).value;
      var objs := SyncedObjects(t, tpl, id);
      SyncUnfold(t, templates, id);
      SyncedEntry(t, tpl, id);
      SyncedSkeleton(t, tpl, id);
      SkeletonKeepsCoherent(t, objs);
      AddMissingKeepsCoherent(t.(objects := objs), id, tpl.points, PointChildNames(objs, id));
    }
  }

  /** The point loop keeps the tree coherent. */
  lemma {:induction false} AddMissingKeepsCoherent(t: Tree, id: nat, points: seq<TemplatePoint>, existing: set<string>)
    requires Coherent(t) && IsEquipmentAt(t.objects, id)
    ensures Coherent(AddMissingPoints(t, id, points, existing))
    decreases |points|
  {
    if |points| > 0 {
      var p := points[0];
      if p.name in existing {
        AddMissingKeepsCoherent(t, id, points[1..], existing);
      } else {
        AddTemplatePointKeepsCoherent(t, id, p);
        AddMissingKeepsCoherent(AddTemplatePoint(t, id, p), id, points[1..], existing);
      }
    }
  }

  /** One created point keeps the tree coherent, and the equipment is still found. */
  lemma AddTemplatePointKeepsCoherent(t: Tree, id: nat, p: TemplatePoint)
    requires Coherent(t) && IsEquipmentAt(t.objects, id)
    ensures Coherent(AddTemplatePoint(t, id, p)) && IsEquipmentAt(AddTemplatePoint(t, id, p).objects, id)
  {
    AddTemplatePointShape(t, id, p);
    var a := AddObject(t, Point, Some(id));
    AddObjectPreservesCoherent(t, Point, Some(id));
    var t1 := AddTemplatePoint(t, id, p);
    assert a.objects == t.objects + [NewObject(Point, Some(id), t.nextId)];
    AppendSameSkeleton(t.objects, NewObject(Point, Some(id), t.nextId), PointObject(id, t.nextId, p));
    SkeletonKeepsCoherent(a, t1.objects);
    assert t1 == a.(objects := t1.objects);
  }
}
