/** The application object `AutoMateApp`: the project's object tree, overlay canvas,
    template lists and settings, and the inherent methods that change them. Each method's
    new state is the matching function of the component modules applied to the old state. */
module App {
  import opened Domain
  import opened Graph
  import opened Overlay
  import Subtree
  import Ancestry
  import Templates
  import Sync
  import Repair
  import Estimate
  import Settings
  import Qol

  /** The part of the state that tree and canvas edits never touch: the project's template
      list, the user's template catalog, the two settings blocks and the custom hour lines. */
  datatype Config = Config(
    templates: seq<EquipmentTemplate>,
    userTemplates: seq<EquipmentTemplate>,
    settings: AppSettings,
    estimator: EstimatorSettings,
    customHourLines: seq<HourLine>)

  /** What a project file supplies on load (the template list is not stored in the file). */
  datatype ProjectFile = ProjectFile(
    objects: seq<BasObject>,
    nextId: nat,
    overlayNodes: seq<OverlayNode>,
    overlayLines: seq<OverlayLine>,
    customHourLines: seq<HourLine>,
    estimator: EstimatorSettings,
    settings: AppSettings)

  /** The one object of a new project: building 1, "HQ Building", everything else empty. */
  function DefaultBuilding(): BasObject {
    BasObject(1, None, Building, "HQ Building", "", "", "", "", "", "", "", false, false,
              StaticByEquipment, ZeroHours, AI, [])
  }

  /** The loop of `normalize_loaded_project` that clears every equipment's property groups. */
  method ClearGroupsLoop(objs: seq<BasObject>) returns (r: seq<BasObject>)
    ensures r == Repair.ClearEquipmentGroups(objs)
  {
    r := objs;
    var i := 0;
    while i < |r|
      invariant 0 <= i <= |r| == |objs|
      invariant forall k :: 0 <= k < i ==>
                  r[k] == (if objs[k].objectType == Equipment then objs[k].(propertyGroups := []) else objs[k])
      invariant forall k :: i <= k < |r| ==> r[k] == objs[k]
    {
      if r[i].objectType == Equipment {
        r := r[i := r[i].(propertyGroups := [])];
      }
      i := i + 1;
    }
  }

  /** The four kinds, each counted once, make up the whole list. */
  lemma {:induction false} KindCountsTotal(objs: seq<BasObject>)
    ensures Estimate.CountKind(objs, Building) + Estimate.CountKind(objs, Controller)
            + Estimate.CountKind(objs, Equipment) + Estimate.CountKind(objs, Point) == |objs|
  {
    if |objs| > 0 {
      KindCountsTotal(objs[..|objs| - 1]);
    }
  }

  class AutoMateApp {
    var objects: seq<BasObject>
    var nextId: nat
    var selected: Option<nat>
    var overlayNodes: seq<OverlayNode>
    var overlayLines: seq<OverlayLine>
    var undoStack: seq<Snapshot>
    var redoStack: seq<Snapshot>
    var activeLineStart: Option<Pos>
    var templates: seq<EquipmentTemplate>
    var userTemplates: seq<EquipmentTemplate>
    var settings: AppSettings
    var estimator: EstimatorSettings
    var customHourLines: seq<HourLine>

    /** The object tree: objects, `next_id` and the selected object. */
    function ObjectTree(): Graph.Tree
      reads this
    {
      Graph.Tree(objects, nextId, selected)
    }

    /** The overlay canvas with its two history stacks and pending route start. */
    function Canvas(): OverlayState
      reads this
    {
      OverlayState(overlayNodes, overlayLines, undoStack, redoStack, activeLineStart)
    }

    function Configuration(): Config
      reads this
    {
      Config(templates, userTemplates, settings, estimator, customHourLines)
    }

    /** The invariant the editing methods keep: a coherent tree and a bounded history. */
    predicate Valid()
      reads this
    {
      Coherent(ObjectTree()) && HistoryBounded(Canvas())
    }

    /** `AutoMateApp::new` with `Project::default()`; `stored` is what reading the user's
        template file produced. */
    constructor (stored: Option<seq<EquipmentTemplate>>)
      ensures objects == [DefaultBuilding()] && nextId == 2 && selected == Some(1)
      ensures Canvas() == EmptyOverlay
      ensures Configuration() == Config(Templates.ProjectDefaultTemplates(), Templates.LoadUserTemplates(stored),
                                        DefaultSettings, DefaultEstimator, [])
      ensures Valid()
    {
      objects := [DefaultBuilding()];
      nextId := 2;
      selected := Some(1);
      overlayNodes := [];
      overlayLines := [];
      undoStack := [];
      redoStack := [];
      activeLineStart := None;
      templates := Templates.ProjectDefaultTemplates();
      userTemplates := Templates.LoadUserTemplates(stored);
      settings := DefaultSettings;
      estimator := DefaultEstimator;
      customHourLines := [];
      new;
      assert Ids(objects) == {1};
    }

    /** `add_object(kind, parent)` */
    method AddObject(kind: ObjectType, parent: Option<nat>)
      modifies this
      ensures ObjectTree() == Graph.AddObject(old(ObjectTree()), kind, parent)
      ensures Canvas() == old(Canvas()) && Configuration() == old(Configuration())
      ensures old(Valid()) ==> Valid()
    {
      ghost var t := ObjectTree();
      if parent.Some? {
        var p := Lookup(objects, parent.value);
        if !(p.Some? && CanBeChildOf(kind, p.value.objectType)) {
          return;
        }
      }
      var id := nextId;
      nextId := nextId + 1;
      objects := objects + [NewObject(kind, parent, id)];
      selected := Some(id);
      if Coherent(t) { AddObjectPreservesCoherent(t, kind, parent); }
    }

    /** `remove_object_subtree(id)`: collect the subtree with the work stack, drop its
        objects and the tokens placed for them, and repair the selection. */
    method RemoveObjectSubtree(id: nat)
      modifies this
      ensures ObjectTree() == Subtree.RemoveSubtree(old(ObjectTree()), id)
      ensures Canvas() == old(Canvas()).(nodes := TokensWithout(old(overlayNodes), Subtree.SubtreeIds(old(objects), id)))
      ensures Configuration() == old(Configuration())
      ensures old(Valid()) ==> Valid()
      ensures old(TokensResolve(overlayNodes, objects)) ==> TokensResolve(overlayNodes, objects)
    {
      ghost var t := ObjectTree();
      ghost var nodes := overlayNodes;
      var toRemove := Subtree.CollectSubtree(objects, id);
      DropObjects(toRemove);
      if Coherent(t) { Subtree.RemoveSubtreePreservesCoherent(t, id); }
      if TokensResolve(nodes, t.objects) { RemovalKeepsTokensResolving(nodes, t.objects, toRemove); }
    }

    /** The `retain` calls of `remove_object_subtree` and its selection repair. */
    method DropObjects(gone: set<nat>)
      modifies this
      ensures objects == Subtree.Without(old(objects), gone) && nextId == old(nextId)
      ensures selected == if old(selected).Some? && old(selected).value in gone then Subtree.FirstId(objects)
                          else old(selected)
      ensures Canvas() == old(Canvas()).(nodes := TokensWithout(old(overlayNodes), gone))
      ensures Configuration() == old(Configuration())
    {
      objects := Subtree.Without(objects, gone);
      overlayNodes := TokensWithout(overlayNodes, gone);
      if selected.Some? && selected.value in gone {
        selected := Subtree.FirstId(objects);
      }
    }

    /** `reparent_object(child, new_parent)`: move the child only when
        `can_reparent_object` allows it. */
    method ReparentObject(child: nat, newParent: nat)
      modifies this
      ensures ObjectTree() == Ancestry.Reparent(old(ObjectTree()), child, newParent)
      ensures Canvas() == old(Canvas()) && Configuration() == old(Configuration())
      ensures old(Valid()) ==> Valid()
    {
      ghost var t := ObjectTree();
      var ok := Ancestry.CanReparentObject(objects, child, newParent);
      if !ok {
        return;
      }
      objects := Ancestry.SetParent(objects, child, newParent);
      if Coherent(t) { Ancestry.ReparentPreservesCoherent(t, child, newParent); }
    }

    /** `duplicate_object(id)` */
    method DuplicateObject(id: nat)
      modifies this
      ensures ObjectTree() == Graph.DuplicateObject(old(ObjectTree()), id)
      ensures Canvas() == old(Canvas()) && Configuration() == old(Configuration())
      ensures old(Valid()) ==> Valid()
    {
      ghost var t := ObjectTree();
      var found := Lookup(objects, id);
      if found.None? {
        return;
      }
      var copy := found.value.(id := nextId);
      nextId := nextId + 1;
      copy := copy.(name := copy.name + " Copy");
      objects := objects + [copy];
      selected := Some(nextId - 1);
      if Coherent(t) { DuplicatePreservesCoherent(t, id); }
    }

    /** `sync_equipment_from_template(id)`: copy the template's fields onto the equipment,
        then add a point for every template point whose name no point child had before. */
    method SyncEquipmentFromTemplate(id: nat)
      modifies this
      ensures ObjectTree() == Sync.SyncEquipment(old(ObjectTree()), templates, id)
      ensures Canvas() == old(Canvas()) && Configuration() == old(Configuration())
      ensures old(Valid()) ==> Valid()
    {
      ghost var t := ObjectTree();
      var eq := Lookup(objects, id);
      if eq.None? || eq.value.objectType != Equipment || eq.value.templateName == [] {
        return;
      }
      var tpl := Templates.FindTemplate(templates, eq.value.templateName);
      if tpl.None? {
        return;
      }
      var i := IndexOf(objects, id).value;
      objects := objects[i := Sync.SyncFields(objects[i], tpl.value, id)];
      var existing := Sync.PointChildNames(objects, id);
      var points := tpl.value.points;
      ghost var target := Sync.AddMissingPoints(ObjectTree(), id, points, existing);
      assert target == Sync.SyncEquipment(t, templates, id);
      var k := 0;
      while k < |points|
        invariant 0 <= k <= |points|
        invariant Sync.AddMissingPoints(ObjectTree(), id, points[k..], existing) == target
        invariant Canvas() == old(Canvas()) && Configuration() == old(Configuration())
      {
        assert points[k..][1..] == points[k + 1..];
        if points[k].name !in existing {
          AddTemplatePoint(id, points[k]);
        }
        k := k + 1;
      }
      if Coherent(t) { Sync.SyncPreservesCoherent(t, templates, id); }
    }

    /** One step of the sync loop: add a point under the equipment, then give the new last
        object the template point's name and kind and no property groups. */
    method AddTemplatePoint(id: nat, p: TemplatePoint)
      modifies this
      ensures ObjectTree() == Sync.AddTemplatePoint(old(ObjectTree()), id, p)
      ensures Canvas() == old(Canvas()) && Configuration() == old(Configuration())
    {
      AddObject(Point, Some(id));
      var n := |objects|;
      if n > 0 {
        objects := objects[n - 1 := objects[n - 1].(name := p.name, pointKind := p.kind, propertyGroups := [])];
      }
    }

    /** `ensure_template_seeded`: seed an empty catalog, keep the first template of each
        name, and copy the catalog into the project. */
    method EnsureTemplateSeeded()
      modifies this
      ensures userTemplates == Templates.SeededCatalog(old(userTemplates)) && templates == userTemplates
      ensures settings == old(settings) && estimator == old(estimator) && customHourLines == old(customHourLines)
      ensures ObjectTree() == old(ObjectTree()) && Canvas() == old(Canvas())
    {
      if userTemplates == [] {
        userTemplates := Templates.SeedData();
      }
      var src := userTemplates;
      var names: set<string> := {};
      var kept: seq<EquipmentTemplate> := [];
      var i := 0;
      while i < |src|
        invariant 0 <= i <= |src|
        invariant kept + Templates.DedupByName(src[i..], names) == Templates.DedupByName(src, {})
      {
        assert src[i..][1..] == src[i + 1..];
        if src[i].name !in names {
          kept := kept + [src[i]];
          names := names + {src[i].name};
        }
        i := i + 1;
      }
      assert src[|src|..] == [];
      userTemplates := kept;
      templates := kept;
    }

    /** `push_overlay_history` */
    method PushOverlayHistory()
      modifies this
      ensures Canvas() == PushHistory(old(Canvas()))
      ensures ObjectTree() == old(ObjectTree()) && Configuration() == old(Configuration())
      ensures old(Valid()) ==> Valid()
    {
      ghost var s := Canvas();
      undoStack := undoStack + [Snapshot(overlayNodes, overlayLines)];
      if |undoStack| > HistoryLimit {
        undoStack := undoStack[1..];
      }
      redoStack := [];
      if HistoryBounded(s) { HistoryStaysBounded(s); }
    }

    /** `overlay_undo` */
    method OverlayUndo()
      modifies this
      ensures Canvas() == Undo(old(Canvas()))
      ensures ObjectTree() == old(ObjectTree()) && Configuration() == old(Configuration())
      ensures old(Valid()) ==> Valid()
    {
      ghost var s := Canvas();
      if |undoStack| > 0 {
        var top := undoStack[|undoStack| - 1];
        undoStack := undoStack[..|undoStack| - 1];
        redoStack := redoStack + [Snapshot(overlayNodes, overlayLines)];
        overlayNodes := top.nodes;
        overlayLines := top.lines;
        activeLineStart := None;
      }
      if HistoryBounded(s) { HistoryStaysBounded(s); }
    }

    /** `overlay_redo` */
    method OverlayRedo()
      modifies this
      ensures Canvas() == Redo(old(Canvas()))
      ensures ObjectTree() == old(ObjectTree()) && Configuration() == old(Configuration())
      ensures old(Valid()) ==> Valid()
    {
      ghost var s := Canvas();
      if |redoStack| > 0 {
        var top := redoStack[|redoStack| - 1];
        redoStack := redoStack[..|redoStack| - 1];
        undoStack := undoStack + [Snapshot(overlayNodes, overlayLines)];
        overlayNodes := top.nodes;
        overlayLines := top.lines;
        activeLineStart := None;
      }
      if HistoryBounded(s) { HistoryStaysBounded(s); }
    }

    /** `place_overlay_node(object_id, pos)` */
    method PlaceOverlayNode(objectId: nat, pos: Pos)
      modifies this
      ensures (Canvas(), nextId) == PlaceNode(old(Canvas()), old(objects), old(nextId), objectId, pos)
      ensures objects == old(objects) && selected == old(selected) && Configuration() == old(Configuration())
      ensures old(Valid()) ==> Valid()
      ensures old(TokensResolve(overlayNodes, objects)) ==> TokensResolve(overlayNodes, objects)
    {
      ghost var s := Canvas();
      var found := Lookup(objects, objectId);
      if found.None? || !Placeable(found.value.objectType) {
        return;
      }
      PushOverlayHistory();
      overlayNodes := overlayNodes + [OverlayNode(nextId, objectId, pos.x, pos.y)];
      nextId := nextId + 1;
      assert objectId in Ids(objects);
    }

    /** A click on the canvas with the route tool at `p`. */
    method RouteToolClick(p: Pos)
      modifies this
      ensures Canvas() == RouteClick(old(Canvas()), p)
      ensures ObjectTree() == old(ObjectTree()) && Configuration() == old(Configuration())
      ensures old(Valid()) ==> Valid()
    {
      match activeLineStart
      case None =>
        activeLineStart := Some(p);
      case Some(start) =>
        activeLineStart := None;
        PushOverlayHistory();
        overlayLines := overlayLines + [OverlayLine(start, p)];
    }

    /** The sync loop of `normalize_loaded_project`, over the collected equipment ids. */
    method SyncAllEquipment(ids: seq<nat>)
      modifies this
      ensures ObjectTree() == Repair.SyncAll(old(ObjectTree()), templates, ids)
      ensures Canvas() == old(Canvas()) && Configuration() == old(Configuration())
    {
      ghost var target := Repair.SyncAll(ObjectTree(), templates, ids);
      var j := 0;
      while j < |ids|
        invariant 0 <= j <= |ids|
        invariant Repair.SyncAll(ObjectTree(), templates, ids[j..]) == target
        invariant Canvas() == old(Canvas()) && Configuration() == old(Configuration())
      {
        assert ids[j..][1..] == ids[j + 1..];
        SyncEquipmentFromTemplate(ids[j]);
        j := j + 1;
      }
    }

    /** The end of `normalize_loaded_project`: bump `next_id` past the largest id and repair
        a selection outside `valid`. */
    method FinishRepair(valid: set<nat>)
      modifies this
      ensures ObjectTree() == Repair.Finalize(old(ObjectTree()), valid)
      ensures Canvas() == old(Canvas()) && Configuration() == old(Configuration())
    {
      var maxId := Repair.MaxId(objects);
      if nextId < maxId + 1 {
        nextId := maxId + 1;
      }
      if selected.Some? && selected.value !in valid {
        selected := Subtree.FirstId(objects);
      }
    }

    /** `normalize_loaded_project` */
    method NormalizeLoadedProject()
      modifies this
      ensures var r := Repair.NormalizeLoaded(old(ObjectTree()), old(overlayNodes), templates);
              ObjectTree() == r.tree && overlayNodes == r.nodes
      ensures overlayLines == old(overlayLines) && undoStack == old(undoStack) && redoStack == old(redoStack)
      ensures activeLineStart == old(activeLineStart) && Configuration() == old(Configuration())
    {
      ghost var t := ObjectTree();
      var kept := Repair.PruneOrphans(objects, Ids(objects));
      var valid := Ids(kept);
      var tokens := TokensOnto(overlayNodes, valid);
      var equipmentIds := Repair.EquipmentIds(kept);
      var cleared := ClearGroupsLoop(kept);
      objects := cleared;
      overlayNodes := tokens;
      ghost var start := ObjectTree();
      assert start == Graph.Tree(cleared, t.nextId, t.selected);
      SyncAllEquipment(equipmentIds);
      FinishRepair(valid);
    }

    /** `load_project_from_path` once the archive is read: install the file's project (with
        an empty template list), repair it, select the first object and clear both history
        stacks. The pending route start is left as it was. */
    method LoadProject(file: ProjectFile)
      modifies this
      ensures var r := Repair.NormalizeLoaded(Graph.Tree(file.objects, file.nextId, old(selected)), file.overlayNodes, []);
              objects == r.tree.objects && nextId == r.tree.nextId && selected == Subtree.FirstId(objects)
              && overlayNodes == r.nodes
      ensures overlayLines == file.overlayLines && undoStack == [] && redoStack == []
      ensures activeLineStart == old(activeLineStart)
      ensures Configuration() == Config([], old(userTemplates), file.settings, file.estimator, file.customHourLines)
      ensures IdsBelow(objects, nextId) && nextId >= file.nextId
      ensures TokensResolve(overlayNodes, objects)
      ensures forall o :: o in objects && o.parentId.Some? ==> o.parentId.value in Ids(file.objects)
      ensures HistoryBounded(Canvas()) && SelectionValid(ObjectTree())
    {
      ghost var t := Graph.Tree(file.objects, file.nextId, selected);
      InstallProject(file);
      NormalizeLoadedProject();
      Repair.LoadRepairGuarantees(t, file.overlayNodes);
      selected := Subtree.FirstId(objects);
      undoStack := [];
      redoStack := [];
    }

    /** The assignment `self.project = ...` of the parsed project. */
    method InstallProject(file: ProjectFile)
      modifies this
      ensures ObjectTree() == Graph.Tree(file.objects, file.nextId, old(selected))
      ensures Canvas() == old(Canvas()).(nodes := file.overlayNodes, lines := file.overlayLines)
      ensures Configuration() == Config([], old(userTemplates), file.settings, file.estimator, file.customHourLines)
    {
      objects := file.objects;
      nextId := file.nextId;
      overlayNodes := file.overlayNodes;
      overlayLines := file.overlayLines;
      customHourLines := file.customHourLines;
      estimator := file.estimator;
      settings := file.settings;
      templates := [];
    }

    /** `apply_recommended_settings` */
    method ApplyRecommendedSettings()
      modifies this
      ensures settings == Settings.RecommendedSettings(old(settings))
      ensures estimator == Settings.RecommendedEstimator(old(estimator))
      ensures templates == old(templates) && userTemplates == old(userTemplates)
      ensures customHourLines == old(customHourLines)
      ensures ObjectTree() == old(ObjectTree()) && Canvas() == old(Canvas())
    {
      var s := settings;
      s := s.(autosaveMinutes := Settings.MinNat(s.autosaveMinutes, 15));
      s := s.(uiScale := Settings.Clamp(s.uiScale, 0.95, 1.25));
      if Text.IsBlank(s.companyName) {
        s := s.(companyName := Settings.DefaultCompanyName);
      }
      settings := s;
      var e := estimator;
      e := e.(complexityFactor := Settings.Clamp(e.complexityFactor, 0.8, 1.4));
      e := e.(renovationFactor := Settings.Clamp(e.renovationFactor, 1.0, 1.35));
      e := e.(integrationFactor := Settings.Clamp(e.integrationFactor, 0.9, 1.3));
      e := e.(qaPercent := Settings.Clamp(e.qaPercent, 5.0, 12.0));
      e := e.(projectManagementPercent := Settings.Clamp(e.projectManagementPercent, 8.0, 16.0));
      e := e.(riskPercent := Settings.Clamp(e.riskPercent, 3.0, 12.0));
      estimator := e;
    }

    /** `run_qol_pass`: the recommended settings, then the label loops. */
    method RunQolPass()
      modifies this
      ensures objects == Qol.LabelAll(old(objects))
      ensures nextId == old(nextId) && selected == old(selected) && Canvas() == old(Canvas())
      ensures settings == Settings.RecommendedSettings(old(settings))
      ensures estimator == Settings.RecommendedEstimator(old(estimator))
      ensures templates == old(templates) && userTemplates == old(userTemplates)
      ensures customHourLines == old(customHourLines)
      ensures old(Valid()) ==> Valid()
    {
      ghost var t := ObjectTree();
      ApplyRecommendedSettings();
      objects := Qol.FillMissingLabels(objects);
      if Coherent(t) { Qol.LabelAllPreservesCoherent(t); }
    }

    /** `object_counts`: how many objects there are of each kind that occurs. */
    method ObjectCounts() returns (counts: map<ObjectType, nat>)
      ensures forall k :: k in counts <==> Estimate.CountKind(objects, k) > 0
      ensures forall k :: k in counts ==> counts[k] == Estimate.CountKind(objects, k)
    {
      counts := map[];
      var i := 0;
      while i < |objects|
        invariant 0 <= i <= |objects|
        invariant forall k :: k in counts <==> Estimate.CountKind(objects[..i], k) > 0
        invariant forall k :: k in counts ==> counts[k] == Estimate.CountKind(objects[..i], k)
      {
        assert objects[..i + 1][..i] == objects[..i];
        var kind := objects[i].objectType;
        counts := counts[kind := (if kind in counts then counts[kind] else 0) + 1];
        i := i + 1;
      }
      assert objects[..|objects|] == objects;
    }
  }
}
