/** The overlay canvas: placed tokens and routed lines, the undo and redo stacks of
    snapshots (`push_overlay_history`, `overlay_undo`, `overlay_redo`), token placement
    (`place_overlay_node`) and the two-click route tool. */
module Overlay {
  import opened Domain
  import opened Graph
  import opened Subtree

  /** One entry of either history stack: the tokens and lines at some moment. */
  datatype Snapshot = Snapshot(nodes: seq<OverlayNode>, lines: seq<OverlayLine>)

  /** The overlay part of the application state. */
  datatype OverlayState = OverlayState(
    nodes: seq<OverlayNode>,
    lines: seq<OverlayLine>,
    undo: seq<Snapshot>,
    redo: seq<Snapshot>,
    activeStart: Option<Pos>)

  /** The most snapshots the undo stack keeps. */
  const HistoryLimit: nat := 50

  /** The state of a new application: nothing placed, both stacks empty. */
  const EmptyOverlay := OverlayState([], [], [], [], None)

  function Current(s: OverlayState): Snapshot {
    Snapshot(s.nodes, s.lines)
  }

  /** `push_overlay_history`: push the current snapshot, drop the oldest one when there are
      more than 50, and clear the redo stack. */
  function PushHistory(s: OverlayState): (r: OverlayState)
    ensures Current(r) == Current(s) && r.activeStart == s.activeStart
    ensures r.redo == []
    ensures |s.undo| <= HistoryLimit ==> |r.undo| <= HistoryLimit
    ensures |r.undo| > 0 && r.undo[|r.undo| - 1] == Current(s)
    ensures |s.undo| < HistoryLimit ==> r.undo == s.undo + [Current(s)]
    ensures |s.undo| >= HistoryLimit ==> r.undo == s.undo[1..] + [Current(s)]
  {
    var pushed := s.undo + [Current(s)];
    s.(undo := if |pushed| > HistoryLimit then pushed[1..] else pushed, redo := [])
  }

  /** `overlay_undo`: with a non-empty undo stack, the current snapshot goes to the redo stack,
      the top of the undo stack becomes current and the pending route start is dropped; with
      an empty one nothing changes, not even the pending route start. */
  function Undo(s: OverlayState): OverlayState {
    if |s.undo| == 0 then s
    else
      var top := s.undo[|s.undo| - 1];
      OverlayState(top.nodes, top.lines, s.undo[..|s.undo| - 1], s.redo + [Current(s)], None)
  }

  /** `overlay_redo`: the mirror image of `Undo`. */
  function Redo(s: OverlayState): OverlayState {
    if |s.redo| == 0 then s
    else
      var top := s.redo[|s.redo| - 1];
      OverlayState(top.nodes, top.lines, s.undo + [Current(s)], s.redo[..|s.redo| - 1], None)
  }

  /** The two stacks together hold at most 50 snapshots. */
  predicate HistoryBounded(s: OverlayState) {
    |s.undo| + |s.redo| <= HistoryLimit
  }

  /** Every operation on the history keeps the joint bound. */
  lemma HistoryStaysBounded(s: OverlayState)
    requires HistoryBounded(s)
    ensures HistoryBounded(PushHistory(s))
    ensures HistoryBounded(Undo(s)) && HistoryBounded(Redo(s))
  {
  }

  /** On an empty stack undo and redo change nothing. */
  lemma EmptyStacksNoOp(s: OverlayState)
    ensures s.undo == [] ==> Undo(s) == s
    ensures s.redo == [] ==> Redo(s) == s
  {
  }

  /** Undo then redo restores the tokens, the lines and both stacks exactly; only the
      pending route start is dropped. The same holds for redo then undo. */
  lemma UndoRedoRoundTrip(s: OverlayState)
    ensures s.undo != [] ==> Redo(Undo(s)) == s.(activeStart := None)
    ensures s.redo != [] ==> Undo(Redo(s)) == s.(activeStart := None)
  {
    if s.undo != [] {
      assert (s.undo[..|s.undo| - 1] + [s.undo[|s.undo| - 1]]) == s.undo;
    }
    if s.redo != [] {
      assert (s.redo[..|s.redo| - 1] + [s.redo[|s.redo| - 1]]) == s.redo;
    }
  }

  /** An edit that pushes history first is undone by one undo: the tokens and lines return
      to what they were before the edit, and the edit's own snapshot can be redone. */
  lemma UndoRevertsEdit(s: OverlayState, nodes: seq<OverlayNode>, lines: seq<OverlayLine>)
    ensures var edited := PushHistory(s).(nodes := nodes, lines := lines);
            var back := Undo(edited);
            Current(back) == Current(s) && back.redo == [Snapshot(nodes, lines)]
            && (|s.undo| < HistoryLimit ==> back.undo == s.undo)
  {
    var edited := PushHistory(s).(nodes := nodes, lines := lines);
    if |s.undo| < HistoryLimit {
      assert edited.undo[..|edited.undo| - 1] == s.undo;
    }
  }

  /** The route tool's click at `p`: the first click records a start; the second consumes it,
      pushes history and appends the line from the start to `p`. */
  function RouteClick(s: OverlayState, p: Pos): (r: OverlayState)
    ensures s.activeStart.None? ==> r == s.(activeStart := Some(p))
    ensures s.activeStart.Some? ==>
              r.activeStart.None? && r.nodes == s.nodes && r.redo == []
              && r.lines == s.lines + [OverlayLine(s.activeStart.value, p)]
  {
    match s.activeStart
    case None => s.(activeStart := Some(p))
    case Some(start) =>
      var h := PushHistory(s.(activeStart := None));
      h.(lines := h.lines + [OverlayLine(start, p)])
  }

  /** Two clicks draw one line, and one undo takes it away again. */
  lemma TwoClicksDrawOneLine(s: OverlayState, a: Pos, b: Pos)
    requires s.activeStart.None?
    ensures var r := RouteClick(RouteClick(s, a), b);
            r.lines == s.lines + [OverlayLine(a, b)] && r.nodes == s.nodes && r.activeStart.None?
            && Current(Undo(r)) == Current(s)
  {
    var r := RouteClick(RouteClick(s, a), b);
    UndoRevertsEdit(s.(activeStart := Some(a)).(activeStart := None), r.nodes, r.lines);
    assert s.(activeStart := Some(a)).(activeStart := None) == s;
  }

  /** The kinds `place_overlay_node` accepts. */
  predicate Placeable(kind: ObjectType) {
    kind == Controller || kind == Equipment
  }

  /** `place_overlay_node(object_id, pos)`: when the object exists and is a controller or an
      equipment, push history, append a token with the next free id, and advance `next_id`;
      otherwise change nothing. The result pairs the new overlay and the new `next_id`. */
  function PlaceNode(s: OverlayState, objs: seq<BasObject>, nextId: nat, objectId: nat, pos: Pos)
    : (OverlayState, nat)
  {
    match Lookup(objs, objectId)
    case None => (s, nextId)
    case Some(o) =>
      if !Placeable(o.objectType) then (s, nextId)
      else
        var h := PushHistory(s);
        (h.(nodes := h.nodes + [OverlayNode(nextId, objectId, pos.x, pos.y)]), nextId + 1)
  }

  /** Placement succeeds exactly for an existing controller or equipment; then it appends one
      token for it with the old `next_id`, bumps `next_id`, and can be undone. */
  lemma PlaceNodeExactly(s: OverlayState, objs: seq<BasObject>, nextId: nat, objectId: nat, pos: Pos)
    ensures var (r, n) := PlaceNode(s, objs, nextId, objectId, pos);
            var ok := Lookup(objs, objectId).Some? && Placeable(Lookup(objs, objectId).value.objectType);
            (!ok ==> r == s && n == nextId)
            && (ok ==> n == nextId + 1 && r.lines == s.lines && r.redo == []
                       && r.nodes == s.nodes + [OverlayNode(nextId, objectId, pos.x, pos.y)]
                       && Current(Undo(r)) == Current(s))
  {
    var (r, n) := PlaceNode(s, objs, nextId, objectId, pos);
    if Lookup(objs, objectId).Some? && Placeable(Lookup(objs, objectId).value.objectType) {
      UndoRevertsEdit(s, r.nodes, r.lines);
    }
  }

  /** Every token refers to an object of the list. */
  predicate TokensResolve(nodes: seq<OverlayNode>, objs: seq<BasObject>) {
    forall k :: 0 <= k < |nodes| ==> nodes[k].objectId in Ids(objs)
  }

  /** Every token id is below `bound`. */
  predicate TokenIdsBelow(nodes: seq<OverlayNode>, bound: nat) {
    forall k :: 0 <= k < |nodes| ==> nodes[k].id < bound
  }

  /** Placement keeps every token resolving and every token id below `next_id`. */
  lemma PlaceNodeKeepsTokensSound(s: OverlayState, objs: seq<BasObject>, nextId: nat, objectId: nat, pos: Pos)
    requires TokensResolve(s.nodes, objs) && TokenIdsBelow(s.nodes, nextId)
    ensures var (r, n) := PlaceNode(s, objs, nextId, objectId, pos);
            TokensResolve(r.nodes, objs) && TokenIdsBelow(r.nodes, n) && n >= nextId
  {
    PlaceNodeExactly(s, objs, nextId, objectId, pos);
  }

  /** `overlay_nodes.retain(|node| keep(node.object_id))` with `gone` the rejected ids. */
  function TokensWithout(nodes: seq<OverlayNode>, gone: set<nat>): (r: seq<OverlayNode>)
    ensures |r| <= |nodes|
    ensures forall n :: n in r <==> n in nodes && n.objectId !in gone
  {
    if |nodes| == 0 then []
    else
      var tail := TokensWithout(nodes[1..], gone);
      assert forall n :: n in nodes <==> n == nodes[0] || n in nodes[1..];
      if nodes[0].objectId in gone then tail else [nodes[0]] + tail
  }

  /** Filtering again changes nothing. */
  lemma {:induction false} TokensWithoutIdempotent(nodes: seq<OverlayNode>, gone: set<nat>)
    ensures TokensWithout(TokensWithout(nodes, gone), gone) == TokensWithout(nodes, gone)
  {
    if |nodes| > 0 {
      TokensWithoutIdempotent(nodes[1..], gone);
      if nodes[0].objectId !in gone {
        var tail := TokensWithout(nodes[1..], gone);
        assert ([nodes[0]] + tail)[1..] == tail;
      }
    }
  }

  /** Dropping the tokens of removed objects keeps the others in their order: filtering a
      concatenation is filtering each part. */
  lemma {:induction false} TokensWithoutAppend(a: seq<OverlayNode>, b: seq<OverlayNode>, gone: set<nat>)
    ensures TokensWithout(a + b, gone) == TokensWithout(a, gone) + TokensWithout(b, gone)
    decreases |a|
  {
    if |a| > 0 {
      assert (a + b)[0] == a[0] && (a + b)[1..] == a[1..] + b;
      TokensWithoutAppend(a[1..], b, gone);
      SeqAssoc([a[0]], TokensWithout(a[1..], gone), TokensWithout(b, gone));
    } else {
      assert a + b == b;
    }
  }

  /** A single token stays exactly when its object is not removed. */
  lemma TokensWithoutSingle(n: OverlayNode, gone: set<nat>)
    ensures TokensWithout([n], gone) == if n.objectId in gone then [] else [n]
  {
  }

  /** Removing a set of objects and their tokens together keeps every token resolving. */
  lemma RemovalKeepsTokensResolving(nodes: seq<OverlayNode>, objs: seq<BasObject>, gone: set<nat>)
    requires TokensResolve(nodes, objs)
    ensures TokensResolve(TokensWithout(nodes, gone), Without(objs, gone))
  {
    var r := TokensWithout(nodes, gone);
    forall k | 0 <= k < |r| ensures r[k].objectId in Ids(Without(objs, gone)) {
      assert r[k] in r;
      var j :| 0 <= j < |nodes| && nodes[j] == r[k];
      var o :| o in objs && o.id == nodes[j].objectId;
      assert o in Without(objs, gone);
    }
  }

  /** `overlay_nodes.retain(|node| valid_ids.contains(&node.object_id))` */
  function TokensOnto(nodes: seq<OverlayNode>, valid: set<nat>): (r: seq<OverlayNode>)
    ensures |r| <= |nodes|
    ensures forall n :: n in r <==> n in nodes && n.objectId in valid
  {
    if |nodes| == 0 then []
    else
      var tail := TokensOnto(nodes[1..], valid);
      assert forall n :: n in nodes <==> n == nodes[0] || n in nodes[1..];
      if nodes[0].objectId in valid then [nodes[0]] + tail else tail
  }

  /** The load filter keeps the tokens in their order: filtering a concatenation is filtering
      each part. */
  lemma {:induction false} TokensOntoAppend(a: seq<OverlayNode>, b: seq<OverlayNode>, valid: set<nat>)
    ensures TokensOnto(a + b, valid) == TokensOnto(a, valid) + TokensOnto(b, valid)
    decreases |a|
  {
    if |a| > 0 {
      assert (a + b)[0] == a[0] && (a + b)[1..] == a[1..] + b;
      TokensOntoAppend(a[1..], b, valid);
      SeqAssoc([a[0]], TokensOnto(a[1..], valid), TokensOnto(b, valid));
    } else {
      assert a + b == b;
    }
  }

  /** A single token stays exactly when its object is in the valid set. */
  lemma TokensOntoSingle(n: OverlayNode, valid: set<nat>)
    ensures TokensOnto([n], valid) == if n.objectId in valid then [n] else []
  {
  }

  /** After keeping only the tokens onto listed objects, every token resolves. */
  lemma TokensOntoResolve(nodes: seq<OverlayNode>, objs: seq<BasObject>)
    ensures TokensResolve(TokensOnto(nodes, Ids(objs)), objs)
  {
    var r := TokensOnto(nodes, Ids(objs));
    forall k | 0 <= k < |r| ensures r[k].objectId in Ids(objs) {
      assert r[k] in r;
    }
  }

  /** Undo may bring back a token whose object was deleted after the snapshot was taken:
      deleting a subtree drops tokens from the canvas but not from the history. */
  lemma UndoCanRestoreDanglingToken()
    ensures var token := OverlayNode(7, 3, 0.0, 0.0);
            var s := OverlayState([], [], [Snapshot([token], [])], [], None);
            TokensResolve(s.nodes, []) && !TokensResolve(Undo(s).nodes, [])
  {
    var s := OverlayState([], [], [Snapshot([OverlayNode(7, 3, 0.0, 0.0)], [])], [], None);
    assert Undo(s).nodes[0].objectId == 3;
  }
}
