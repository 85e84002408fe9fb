/** The label half of `run_qol_pass`: every equipment with a blank tag gets
    `"{type}-{id}"` (the trimmed equipment type, or `EQ` when that is blank), every blank
    equipment name becomes `"Equipment {id}"` and every blank point name `"Point {id}"`.
    The pass also applies the recommended settings; that half is in the Settings module. */
module Qol {
  import opened Domain
  import opened Text
  import opened Graph
  import Sync

  /** The tag the pass gives an equipment whose tag is blank. */
  function QolTag(o: BasObject): string {
    (if IsBlank(o.equipmentType) then "EQ" else Trim(o.equipmentType)) + "-" + NatToString(o.id)
  }

  /** A label made of a word, a space and a number is never blank. */
  lemma WordLabelNotBlank(word: string, id: nat)
    requires word != [] && !IsWhitespace(word[0])
    ensures !IsBlank(word + " " + NatToString(id))
  {
    NotBlankWhenSolid(word + " " + NatToString(id), 0);
  }

  /** The first loop's change to one equipment. */
  function FillEquipment(o: BasObject): BasObject {
    o.(equipmentTag := if IsBlank(o.equipmentTag) then QolTag(o) else o.equipmentTag,
       name := if IsBlank(o.name) then "Equipment " + NatToString(o.id) else o.name)
  }

  /** The second loop's change to one point. */
  function FillPoint(o: BasObject): BasObject {
    o.(name := if IsBlank(o.name) then "Point " + NatToString(o.id) else o.name)
  }

  /** What the pass does to one object: only a blank name or tag changes; afterwards an
      equipment has a name and a tag and a point has a name. */
  function Labelled(o: BasObject): (r: BasObject)
    ensures r == o.(name := r.name, equipmentTag := r.equipmentTag)
    ensures !IsBlank(o.name) ==> r.name == o.name
    ensures !IsBlank(o.equipmentTag) ==> r.equipmentTag == o.equipmentTag
    ensures o.objectType == Equipment ==> !IsBlank(r.name) && !IsBlank(r.equipmentTag)
    ensures o.objectType == Point ==> !IsBlank(r.name) && r.equipmentTag == o.equipmentTag
    ensures o.objectType != Equipment && o.objectType != Point ==> r == o
  {
    WordLabelNotBlank("Equipment", o.id);
    WordLabelNotBlank("Point", o.id);
    Sync.GeneratedTagNotBlank(if IsBlank(o.equipmentType) then "EQ" else Trim(o.equipmentType), o.id);
    if o.objectType == Equipment then FillEquipment(o)
    else if o.objectType == Point then FillPoint(o)
    else o
  }

  /** The pass over the whole object list. */
  function LabelAll(objs: seq<BasObject>): seq<BasObject> {
    seq(|objs|, i requires 0 <= i < |objs| => Labelled(objs[i]))
  }

  /** The state after the first loop, for one object. */
  function AfterEquipmentLoop(o: BasObject): BasObject {
    if o.objectType == Equipment then FillEquipment(o) else o
  }

  /** The first loop of `run_qol_pass`, over the equipment. */
  method FillEquipmentLabels(objs: seq<BasObject>) returns (r: seq<BasObject>)
    ensures |r| == |objs|
    ensures forall k :: 0 <= k < |objs| ==> r[k] == AfterEquipmentLoop(objs[k])
  {
    r := objs;
    var i := 0;
    while i < |r|
      invariant 0 <= i <= |r| == |objs|
      invariant forall k :: 0 <= k < i ==> r[k] == AfterEquipmentLoop(objs[k])
      invariant forall k :: i <= k < |r| ==> r[k] == objs[k]
    {
      if r[i].objectType == Equipment {
        r := r[i := FillEquipment(r[i])];
      }
      i := i + 1;
    }
  }

  /** The state after the second loop, for one object. */
  function AfterPointLoop(o: BasObject): BasObject {
    if o.objectType == Point then FillPoint(o) else o
  }

  /** The second loop of `run_qol_pass`, over the points. */
  method FillPointLabels(objs: seq<BasObject>) returns (r: seq<BasObject>)
    ensures |r| == |objs|
    ensures forall k :: 0 <= k < |objs| ==> r[k] == AfterPointLoop(objs[k])
  {
    r := objs;
    var i := 0;
    while i < |r|
      invariant 0 <= i <= |r| == |objs|
      invariant forall k :: 0 <= k < i ==> r[k] == AfterPointLoop(objs[k])
      invariant forall k :: i <= k < |r| ==> r[k] == objs[k]
    {
      if r[i].objectType == Point && IsBlank(r[i].name) {
        r := r[i := FillPoint(r[i])];
      } else {
        assert AfterPointLoop(r[i]) == r[i];
      }
      i := i + 1;
    }
  }

  /** Both loops: the result is the pass applied to every object. */
  method FillMissingLabels(objs: seq<BasObject>) returns (r: seq<BasObject>)
    ensures r == LabelAll(objs)
  {
    var mid := FillEquipmentLabels(objs);
    r := FillPointLabels(mid);
    forall k | 0 <= k < |objs| ensures r[k] == Labelled(objs[k]) {
      assert mid[k] == AfterEquipmentLoop(objs[k]);
      assert r[k] == AfterPointLoop(mid[k]);
    }
  }

  /** A second pass changes nothing. */
  lemma LabelledIdempotent(o: BasObject)
    ensures Labelled(Labelled(o)) == Labelled(o)
  {
    var r := Labelled(o);
    var rr := Labelled(r);
    assert rr.name == r.name;
    assert rr.equipmentTag == r.equipmentTag;
  }

  lemma LabelAllIdempotent(objs: seq<BasObject>)
    ensures LabelAll(LabelAll(objs)) == LabelAll(objs)
  {
    forall k | 0 <= k < |objs| ensures LabelAll(LabelAll(objs))[k] == LabelAll(objs)[k] {
      LabelledIdempotent(objs[k]);
    }
  }

  /** After the pass no equipment and no point is left without a name, and no equipment
      without a tag; labels that were filled in stay as they were. */
  lemma LabelAllFillsBlanks(objs: seq<BasObject>)
    ensures forall k :: 0 <= k < |objs| && objs[k].objectType in {Equipment, Point} ==>
              !IsBlank(LabelAll(objs)[k].name)
    ensures forall k :: 0 <= k < |objs| && objs[k].objectType == Equipment ==>
              !IsBlank(LabelAll(objs)[k].equipmentTag)
    ensures forall k :: 0 <= k < |objs| && !IsBlank(objs[k].name) ==> LabelAll(objs)[k].name == objs[k].name
  {
  }

  /** The pass keeps ids, parents and kinds, so it keeps the tree coherent. */
  lemma LabelAllPreservesCoherent(t: Tree)
    requires Coherent(t)
    ensures Coherent(t.(objects := LabelAll(t.objects)))
  {
    SkeletonKeepsCoherent(t, LabelAll(t.objects));
  }
}
