/** The object-tree search: the per-object match test `object_matches_query` and
    `filtered_root_ids`, which keeps the roots that match or have a matching descendant. */
module Search {
  import opened Domain
  import opened Text
  import opened Graph
  import Ancestry

  /** `text` takes part in the match: it is not empty and its lower-cased form contains the
      lower-cased query. */
  predicate FieldMatches(text: string, query: string) {
    text != [] && Contains(ToAsciiLowercase(text), ToAsciiLowercase(query))
  }

  /** `object_matches_query`: the empty query matches everything; otherwise one of name,
      equipment type, equipment tag or template name must match. */
  predicate ObjectMatchesQuery(o: BasObject, query: string) {
    query == []
    || FieldMatches(o.name, query) || FieldMatches(o.equipmentType, query)
    || FieldMatches(o.equipmentTag, query) || FieldMatches(o.templateName, query)
  }

  /** A field holding the query verbatim makes the object match. */
  lemma ExactFieldMatches(o: BasObject, query: string, i: nat)
    requires OccursAt(o.name, query, i) || OccursAt(o.equipmentType, query, i)
          || OccursAt(o.equipmentTag, query, i) || OccursAt(o.templateName, query, i)
    ensures ObjectMatchesQuery(o, query)
  {
    if query != [] {
      if OccursAt(o.name, query, i) { ContainsLower(o.name, query); }
      else if OccursAt(o.equipmentType, query, i) { ContainsLower(o.equipmentType, query); }
      else if OccursAt(o.equipmentTag, query, i) { ContainsLower(o.equipmentTag, query); }
      else { ContainsLower(o.templateName, query); }
    }
  }

  /** The match ignores ASCII case in the query. */
  lemma MatchIgnoresQueryCase(o: BasObject, query: string)
    ensures ObjectMatchesQuery(o, ToAsciiLowercase(query)) == ObjectMatchesQuery(o, query)
  {
    LowerIdempotent(query);
  }

  /** A non-empty query never matches an object whose four fields are all empty. */
  lemma EmptyFieldsNeverMatch(o: BasObject, query: string)
    requires query != []
    requires o.name == [] && o.equipmentType == [] && o.equipmentTag == [] && o.templateName == []
    ensures !ObjectMatchesQuery(o, query)
  {
  }

  /** The `BTreeMap<u64, &BasObject>` collected from the list: a later object with an id
      replaces an earlier one. */
  function LastMap(objs: seq<BasObject>): (m: map<nat, BasObject>)
    ensures forall x :: x in m <==> x in Ids(objs)
    ensures forall x :: x in m ==> m[x] in objs && m[x].id == x
  {
    if |objs| == 0 then map[]
    else
      var init := objs[..|objs| - 1];
      var last := objs[|objs| - 1];
      assert objs == init + [last];
      assert forall o :: o in objs <==> o == last || o in init;
      LastMap(init)[last.id := last]
  }

  /** The map holds, for each id, the object at the last position with that id. */
  lemma {:induction false} LastMapLastWins(objs: seq<BasObject>, j: nat)
    requires j < |objs| && forall k :: j < k < |objs| ==> objs[k].id != objs[j].id
    ensures LastMap(objs)[objs[j].id] == objs[j]
    decreases |objs|
  {
    if j < |objs| - 1 {
      var init := objs[..|objs| - 1];
      LastMapLastWins(init, j);
    }
  }

  /** The parent of `x` as `object_map.get(&x).and_then(|o| o.parent_id)` sees it. */
  function MapParent(m: map<nat, BasObject>, x: nat): Option<nat> {
    if x in m then m[x].parentId else None
  }

  /** The id reached after `n` steps up from `x` through the map. */
  function MapWalk(m: map<nat, BasObject>, x: nat, n: nat): Option<nat>
    decreases n
  {
    if n == 0 then Some(x)
    else match MapParent(m, x)
      case None => None
      case Some(p) => MapWalk(m, p, n - 1)
  }

  /** `v` is shown by the search: it is on the ancestor chain of a matching object. */
  ghost predicate Visible(objs: seq<BasObject>, query: string, v: nat) {
    exists j: nat, n: nat :: j < |objs| && ObjectMatchesQuery(objs[j], query)
                             && MapWalk(LastMap(objs), objs[j].id, n) == Some(v)
  }

  /** The ids of the roots of `part`, in order, that are visible in `objs`. */
  ghost function VisibleRoots(part: seq<BasObject>, objs: seq<BasObject>, query: string): seq<nat> {
    if |part| == 0 then []
    else (if part[0].parentId.None? && Visible(objs, query, part[0].id) then [part[0].id] else [])
         + VisibleRoots(part[1..], objs, query)
  }

  /** The ids of the roots, in order. */
  function RootIds(objs: seq<BasObject>): (r: seq<nat>)
    ensures forall x :: x in r <==> exists o :: o in objs && o.parentId.None? && o.id == x
  {
    if |objs| == 0 then []
    else
      assert forall o :: o in objs <==> o == objs[0] || o in objs[1..];
      (if objs[0].parentId.None? then [objs[0].id] else []) + RootIds(objs[1..])
  }

  /** With the empty query every object is visible, so the fast path of
      `filtered_root_ids` returns what the general path would. */
  lemma {:induction false} EmptyQueryShowsAllRoots(part: seq<BasObject>, objs: seq<BasObject>)
    requires forall o :: o in part ==> o in objs
    ensures VisibleRoots(part, objs, []) == RootIds(part)
    decreases |part|
  {
    if |part| > 0 {
      assert part[0] in part;
      var j :| 0 <= j < |objs| && objs[j] == part[0];
      assert MapWalk(LastMap(objs), objs[j].id, 0) == Some(part[0].id);
      assert Visible(objs, [], part[0].id);
      EmptyQueryShowsAllRoots(part[1..], objs);
    }
  }

  /** Every parent the map names lies in `universe`. */
  predicate ParentsInside(m: map<nat, BasObject>, universe: set<nat>) {
    forall x :: x in m && m[x].parentId.Some? ==> m[x].parentId.value in universe
  }

  /** The ids and parent ids of the list bound every walk through its map. */
  lemma LastMapParentsInside(objs: seq<BasObject>)
    ensures ParentsInside(LastMap(objs), Ids(objs) + Ancestry.ParentIds(objs))
  {
    var m := LastMap(objs);
    forall x | x in m && m[x].parentId.Some?
      ensures m[x].parentId.value in Ids(objs) + Ancestry.ParentIds(objs)
    {
      assert m[x] in objs;
    }
  }

  /** Every parent of a member of `v` is in `v`. */
  predicate UpClosed(m: map<nat, BasObject>, v: set<nat>) {
    forall x :: x in v && MapParent(m, x).Some? ==> MapParent(m, x).value in v
  }

  /** Upward closed except for members whose parent is the pending id `current`. */
  predicate ClosedBut(m: map<nat, BasObject>, v: set<nat>, current: Option<nat>) {
    forall x :: x in v && MapParent(m, x).Some? ==> MapParent(m, x).value in v || MapParent(m, x) == current
  }

  /** An upward-closed set holds the whole ancestor chain of each of its members. */
  lemma {:induction false} UpClosedHoldsChain(m: map<nat, BasObject>, v: set<nat>, x: nat, n: nat)
    requires UpClosed(m, v) && x in v
    ensures MapWalk(m, x, n).None? || MapWalk(m, x, n).value in v
    decreases n
  {
    if n > 0 && MapParent(m, x).Some? {
      UpClosedHoldsChain(m, v, MapParent(m, x).value, n - 1);
    }
  }

  /** One more step of the map walk is one parent lookup. */
  lemma {:induction false} MapWalkSnoc(m: map<nat, BasObject>, x: nat, n: nat)
    ensures MapWalk(m, x, n + 1) == match MapWalk(m, x, n) case None => None case Some(y) => MapParent(m, y)
    decreases n
  {
    if n > 0 {
      match MapParent(m, x)
      case None =>
      case Some(p) => MapWalkSnoc(m, p, n - 1);
    }
  }

  /** Inserting the pending id and moving to its parent keeps the pending-closure property. */
  lemma InsertPending(m: map<nat, BasObject>, v: set<nat>, id: nat)
    requires ClosedBut(m, v, Some(id))
    ensures ClosedBut(m, v + {id}, MapParent(m, id))
  {
  }

  /** The inner `while let` of `filtered_root_ids`: insert `start` and its ancestors into the
      visible set, stopping at the first id already there. */
  method MarkAncestors(m: map<nat, BasObject>, ghost universe: set<nat>, start: nat, visible: set<nat>)
    returns (r: set<nat>)
    requires ParentsInside(m, universe) && start in universe
    requires UpClosed(m, visible) && visible <= universe
    ensures visible <= r <= universe && start in r && UpClosed(m, r)
    ensures forall x :: x in r && x !in visible ==> exists n: nat :: MapWalk(m, start, n) == Some(x)
  {
    r := visible;
    var current: Option<nat> := Some(start);
    ghost var k: nat := 0;
    while current.Some?
      invariant current == MapWalk(m, start, k)
      invariant current.Some? ==> current.value in universe
      invariant visible <= r <= universe
      invariant k == 0 ==> r == visible
      invariant k > 0 ==> start in r
      invariant ClosedBut(m, r, current)
      invariant forall x :: x in r && x !in visible ==> exists n: nat :: MapWalk(m, start, n) == Some(x)
      decreases |universe - r|
    {
      var id := current.value;
      if id in r {
        break;
      }
      Ancestry.VisitShrinks(universe, r, id);
      InsertPending(m, r, id);
      r := r + {id};
      current := if id in m then m[id].parentId else None;
      MapWalkSnoc(m, start, k);
      k := k + 1;
    }
  }

  /** The visible set after the outer loop has seen `objs[..i]`. */
  predicate MarkedUpTo(objs: seq<BasObject>, query: string, i: nat, visible: set<nat>)
    requires i <= |objs|
  {
    forall j :: 0 <= j < i && ObjectMatchesQuery(objs[j], query) ==> objs[j].id in visible
  }

  /** An id on the chain of a matching object is visible. */
  lemma VisibleIntro(objs: seq<BasObject>, query: string, j: nat, n: nat, x: nat)
    requires j < |objs| && ObjectMatchesQuery(objs[j], query)
    requires MapWalk(LastMap(objs), objs[j].id, n) == Some(x)
    ensures Visible(objs, query, x)
  {
  }

  /** The outer loop's step: a match at `i` is marked afterwards, earlier marks stay. */
  lemma MarkedStep(objs: seq<BasObject>, query: string, i: nat, before: set<nat>, after: set<nat>)
    requires i < |objs| && MarkedUpTo(objs, query, i, before) && before <= after
    requires ObjectMatchesQuery(objs[i], query) ==> objs[i].id in after
    ensures MarkedUpTo(objs, query, i + 1, after)
  {
  }

  /** `self.project.objects.iter().map(|o| (o.id, o)).collect()` into a `BTreeMap`. */
  method CollectObjectMap(objs: seq<BasObject>) returns (m: map<nat, BasObject>)
    ensures m == LastMap(objs)
  {
    m := map[];
    var i := 0;
    while i < |objs|
      invariant 0 <= i <= |objs|
      invariant m == LastMap(objs[..i])
    {
      assert objs[..i + 1][..i] == objs[..i];
      m := m[objs[i].id := objs[i]];
      i := i + 1;
    }
    assert objs[..|objs|] == objs;
  }

  /** The outer loop of `filtered_root_ids`: mark every matching object and its ancestors. */
  method CollectVisible(objs: seq<BasObject>, m: map<nat, BasObject>, query: string) returns (visible: set<nat>)
    requires m == LastMap(objs)
    ensures forall x :: x in visible <==> Visible(objs, query, x)
  {
    ghost var universe := Ids(objs) + Ancestry.ParentIds(objs);
    LastMapParentsInside(objs);
    visible := {};
    var i := 0;
    while i < |objs|
      invariant 0 <= i <= |objs|
      invariant UpClosed(m, visible) && visible <= universe
      invariant MarkedUpTo(objs, query, i, visible)
      invariant forall x :: x in visible ==> Visible(objs, query, x)
    {
      ghost var before := visible;
      var matches := ObjectMatchesQuery(objs[i], query);
      if matches {
        assert objs[i] in objs;
        visible := MarkAncestors(m, universe, objs[i].id, visible);
        forall x | x in visible ensures Visible(objs, query, x) {
          if x !in before {
            var n: nat :| MapWalk(m, objs[i].id, n) == Some(x);
            VisibleIntro(objs, query, i, n, x);
          }
        }
      }
      MarkedStep(objs, query, i, before, visible);
      i := i + 1;
    }
    VisibleExactly(objs, query, visible);
  }

  /** The final `filter` of `filtered_root_ids`: the roots whose id was marked, in order. */
  method KeepVisibleRoots(objs: seq<BasObject>, query: string, visible: set<nat>) returns (r: seq<nat>)
    requires forall x :: x in visible <==> Visible(objs, query, x)
    ensures r == VisibleRoots(objs, objs, query)
  {
    r := [];
    var i := 0;
    while i < |objs|
      invariant 0 <= i <= |objs|
      invariant r + VisibleRoots(objs[i..], objs, query) == VisibleRoots(objs, objs, query)
    {
      VisibleRootsStep(objs[i..], objs, query, visible);
      assert objs[i..][1..] == objs[i + 1..];
      var head := if objs[i].parentId.None? && objs[i].id in visible then [objs[i].id] else [];
      SeqAssoc(r, head, VisibleRoots(objs[i + 1..], objs, query));
      r := r + head;
      i := i + 1;
    }
  }

  lemma VisibleRootsStep(part: seq<BasObject>, objs: seq<BasObject>, query: string, visible: set<nat>)
    requires |part| > 0
    requires forall x :: x in visible <==> Visible(objs, query, x)
    ensures VisibleRoots(part, objs, query)
            == (if part[0].parentId.None? && part[0].id in visible then [part[0].id] else [])
               + VisibleRoots(part[1..], objs, query)
  {
  }

  /** `filtered_root_ids(query)`: the ids of the roots, in list order, that carry a match
      themselves or have a matching object on the ancestor chain's far end. */
  method FilteredRootIds(objs: seq<BasObject>, query: string) returns (r: seq<nat>)
    ensures r == VisibleRoots(objs, objs, query)
  {
    if query == [] {
      EmptyQueryShowsAllRoots(objs, objs);
      return RootIds(objs);
    }
    var m := CollectObjectMap(objs);
    var visible := CollectVisible(objs, m, query);
    r := KeepVisibleRoots(objs, query, visible);
  }

  /** After the outer loop the visible set holds exactly the visible ids. */
  lemma VisibleExactly(objs: seq<BasObject>, query: string, visible: set<nat>)
    requires UpClosed(LastMap(objs), visible) && MarkedUpTo(objs, query, |objs|, visible)
    requires forall x :: x in visible ==> Visible(objs, query, x)
    ensures forall x :: x in visible <==> Visible(objs, query, x)
  {
    forall x | Visible(objs, query, x) ensures x in visible {
      var j: nat, n: nat :| j < |objs| && ObjectMatchesQuery(objs[j], query)
                           && MapWalk(LastMap(objs), objs[j].id, n) == Some(x);
      UpClosedHoldsChain(LastMap(objs), visible, objs[j].id, n);
    }
  }

  /** A matching root is always returned, and every returned id is a root. */
  lemma MatchingRootShown(objs: seq<BasObject>, query: string, j: nat)
    requires j < |objs| && objs[j].parentId.None? && ObjectMatchesQuery(objs[j], query)
    ensures objs[j].id in VisibleRoots(objs, objs, query)
  {
    assert MapWalk(LastMap(objs), objs[j].id, 0) == Some(objs[j].id);
    assert Visible(objs, query, objs[j].id);
    VisibleRootsMembers(objs, objs, query);
  }

  /** The members of `VisibleRoots` are the visible roots. */
  lemma {:induction false} VisibleRootsMembers(part: seq<BasObject>, objs: seq<BasObject>, query: string)
    ensures forall x :: x in VisibleRoots(part, objs, query) <==>
              (exists o :: o in part && o.parentId.None? && o.id == x) && Visible(objs, query, x)
    decreases |part|
  {
    if |part| > 0 {
      VisibleRootsMembers(part[1..], objs, query);
      assert forall o :: o in part <==> o == part[0] || o in part[1..];
    }
  }
  /** With unique ids the last-wins map holds the object `iter().find` finds. */
  lemma LastMapIsLookup(objs: seq<BasObject>, x: nat)
    requires UniqueIds(objs) && x in Ids(objs)
    ensures LastMap(objs)[x] == Lookup(objs, x).value
  {
    var j := IndexOf(objs, x).value;
    LastMapLastWins(objs, j);
  }

  lemma MapParentIsParentOf(objs: seq<BasObject>, x: nat)
    requires UniqueIds(objs)
    ensures MapParent(LastMap(objs), x) == Ancestry.ParentOf(objs, x)
  {
    if x in Ids(objs) {
      LastMapIsLookup(objs, x);
    }
  }

  /** A map that gives every id the parent `iter().find` gives walks the same chains. */
  lemma {:induction false} MapWalkIsWalk(m: map<nat, BasObject>, objs: seq<BasObject>, x: nat, n: nat)
    requires forall y :: MapParent(m, y) == Ancestry.ParentOf(objs, y)
    ensures MapWalk(m, x, n) == Ancestry.Walk(objs, x, n)
    decreases n
  {
    if n > 0 {
      assert MapParent(m, x) == Ancestry.ParentOf(objs, x);
      match Ancestry.ParentOf(objs, x)
      case None =>
      case Some(p) => MapWalkIsWalk(m, objs, p, n - 1);
    }
  }

  /** With unique ids the search walks the same ancestor chains as the reparent guard. */
  lemma SearchWalkIsWalk(objs: seq<BasObject>, x: nat, n: nat)
    requires UniqueIds(objs)
    ensures MapWalk(LastMap(objs), x, n) == Ancestry.Walk(objs, x, n)
  {
    forall y ensures MapParent(LastMap(objs), y) == Ancestry.ParentOf(objs, y) {
      MapParentIsParentOf(objs, y);
    }
    MapWalkIsWalk(LastMap(objs), objs, x, n);
  }

  /** With unique ids, `filtered_root_ids` returns a root exactly when the root is a match or
      an ancestor of one. */
  lemma ShownIffAncestorOfMatch(objs: seq<BasObject>, query: string, x: nat)
    requires UniqueIds(objs)
    ensures x in VisibleRoots(objs, objs, query) <==>
              (exists o :: o in objs && o.parentId.None? && o.id == x)
              && (exists j: nat :: j < |objs| && ObjectMatchesQuery(objs[j], query)
                                   && Ancestry.IsAncestorOrSelf(objs, x, objs[j].id))
  {
    VisibleRootsMembers(objs, objs, query);
    if Visible(objs, query, x) {
      var j: nat, n: nat :| j < |objs| && ObjectMatchesQuery(objs[j], query)
                           && MapWalk(LastMap(objs), objs[j].id, n) == Some(x);
      SearchWalkIsWalk(objs, objs[j].id, n);
    }
    if exists j: nat :: j < |objs| && ObjectMatchesQuery(objs[j], query)
                        && Ancestry.IsAncestorOrSelf(objs, x, objs[j].id) {
      var j: nat :| j < |objs| && ObjectMatchesQuery(objs[j], query)
                    && Ancestry.IsAncestorOrSelf(objs, x, objs[j].id);
      var n: nat :| Ancestry.Walk(objs, objs[j].id, n) == Some(x);
      SearchWalkIsWalk(objs, objs[j].id, n);
      VisibleIntro(objs, query, j, n, x);
    }
  }
}
