/** Queueing a box on the current line (`AddToLine`) and moving the pen past it
    (`AdvancePen`). */
module Placement {
  import opened Wrappers
  import opened Boxes
  import opened Cursors

  function Max(a: real, b: real): (m: real)
    ensures m >= a && m >= b && (m == a || m == b)
  {
    if a >= b then a else b
  }

  predicate NoDup(s: seq<BoxId>)
  {
    forall i, j :: 0 <= i < j < |s| ==> s[i] != s[j]
  }

  /** `ids` is exactly the chain that `NextOnLine` links describe. */
  predicate OnLineChain(boxes: seq<Box>, ids: seq<BoxId>)
  {
    && AllIn(ids, |boxes|)
    && (forall i :: 0 <= i < |ids| - 1 ==> boxes[ids[i]].nextOnLine == Some(ids[i + 1]))
    && (|ids| > 0 ==> boxes[ids[|ids| - 1]].nextOnLine == None)
  }

  /** `ids` is exactly the chain that `NextLineStart` links describe. */
  predicate LineStartChain(boxes: seq<Box>, ids: seq<BoxId>)
  {
    && AllIn(ids, |boxes|)
    && (forall i :: 0 <= i < |ids| - 1 ==> boxes[ids[i]].nextLineStart == Some(ids[i + 1]))
    && (|ids| > 0 ==> boxes[ids[|ids| - 1]].nextLineStart == None)
  }

  /** The cursor's list views agree with the boxes' links, and no box sits twice
      on the two lists that share the `NextOnLine` field. */
  predicate LinksAgree(st: State, c: CursorId)
    requires c < |st.cursors|
  {
    var cur := st.cursors[c];
    && OnLineChain(st.boxes, cur.onLine)
    && OnLineChain(st.boxes, cur.outOfFlow)
    && LineStartChain(st.boxes, cur.lineStarts)
    && NoDup(cur.onLine + cur.outOfFlow)
    && NoDup(cur.lineStarts)
  }

  /** `cur'` differs from `cur` at most in its four lists. */
  predicate OnlyListsChanged(cur: Cursor, cur': Cursor)
  {
    cur' == cur.(onLine := cur'.onLine, outOfFlow := cur'.outOfFlow,
                 lineStarts := cur'.lineStarts, activeFloats := cur'.activeFloats)
  }

  /** No box's `NextInElement` link differs: the line cursor never edits the
      fragment chains except when it wraps an element. */
  predicate ElementChainsKept(boxes: seq<Box>, boxes': seq<Box>)
  {
    |boxes'| == |boxes| && forall x :: 0 <= x < |boxes| ==> boxes'[x].nextInElement == boxes[x].nextInElement
  }

  /** Point the last box of a `NextOnLine` chain at `b`. */
  function LinkOnLine(boxes: seq<Box>, ids: seq<BoxId>, b: BoxId): (r: seq<Box>)
    requires AllIn(ids, |boxes|)
    ensures |r| == |boxes|
  {
    if |ids| == 0 then boxes
    else var last := ids[|ids| - 1]; boxes[last := boxes[last].(nextOnLine := Some(b))]
  }

  lemma AllInSnoc(ids: seq<BoxId>, b: BoxId, boxes: seq<Box>)
    requires AllIn(ids, |boxes|) && b < |boxes|
    ensures AllIn(ids + [b], |boxes|)
  {
    forall i | 0 <= i < |ids + [b]|
      ensures (ids + [b])[i] < |boxes|
    {
      if i < |ids| {
        assert (ids + [b])[i] == ids[i];
      }
    }
  }

  /** Out of flow: append to the out-of-flow list and place the box at the pen
      plus its margin. */
  function QueueOutOfFlow(st: State, c: CursorId, b: BoxId, penY: real): (st': State)
    requires Valid(st) && c < |st.cursors| && b < |st.boxes|
    ensures Valid(st') && SameShape(st, st') && |st'.boxes| == |st.boxes|
    ensures st'.renders == st.renders
    ensures st'.cursors == st.cursors[c := st.cursors[c].(outOfFlow := st.cursors[c].outOfFlow + [b])]
    ensures st'.boxes[b].parentOffsetLeft == st.cursors[c].penX + st.boxes[b].margin.left
    ensures st'.boxes[b].parentOffsetTop == penY + st.boxes[b].margin.top
    ensures ElementChainsKept(st.boxes, st'.boxes)
    ensures b !in st.cursors[c].outOfFlow ==>
              st'.boxes[b] == st.boxes[b].(parentOffsetLeft := st'.boxes[b].parentOffsetLeft,
                                           parentOffsetTop := st'.boxes[b].parentOffsetTop)
  {
    var cur := st.cursors[c];
    var box := st.boxes[b];
    var st1 := PutBoxes(st, LinkOnLine(st.boxes, cur.outOfFlow, b));
    var st2 := PutBox(st1, b, st1.boxes[b].(parentOffsetLeft := cur.penX + box.margin.left,
                                            parentOffsetTop := penY + box.margin.top));
    AllInSnoc(cur.outOfFlow, b, st2.boxes);
    PutCursor(st2, c, cur.(outOfFlow := cur.outOfFlow + [b]))
  }

  /** Floated: append to the active floats; the box is placed later by `AdvancePen`. */
  function QueueFloat(st: State, c: CursorId, b: BoxId): (st': State)
    requires Valid(st) && c < |st.cursors| && b < |st.boxes|
    ensures Valid(st') && SameShape(st, st') && st'.boxes == st.boxes
    ensures st'.renders == st.renders
    ensures st'.cursors == st.cursors[c := st.cursors[c].(activeFloats := st.cursors[c].activeFloats + [b])]
  {
    var cur := st.cursors[c];
    AllInSnoc(cur.activeFloats, b, st.boxes);
    PutCursor(st, c, cur.(activeFloats := cur.activeFloats + [b]))
  }

  /** The first box of the first line: it starts both lists and becomes the
      first child of the parent cursor's current box, when there is one. */
  function StartFirstLine(st: State, c: CursorId, b: BoxId): (st': State)
    requires Valid(st) && c < |st.cursors| && b < |st.boxes|
    ensures Valid(st') && SameShape(st, st') && |st'.boxes| == |st.boxes| && st'.renders == st.renders
    ensures var cur := st.cursors[c];
            && st'.cursors == st.cursors[c := cur.(onLine := [b], lineStarts := [b])]
            && st'.boxes == (if cur.parent.Some? && st.cursors[cur.parent.value].currentBox.Some?
                             then var pb := st.cursors[cur.parent.value].currentBox.value;
                                  st.boxes[pb := st.boxes[pb].(firstChild := Some(b))]
                             else st.boxes)
  {
    var cur := st.cursors[c];
    var st1 :=
      if cur.parent.Some? && st.cursors[cur.parent.value].currentBox.Some? then
        var pb := st.cursors[cur.parent.value].currentBox.value;
        assert CursorValid(st.cursors[cur.parent.value], |st.boxes|, |st.cursors|, |st.renders|);
        PutBox(st, pb, st.boxes[pb].(firstChild := Some(b)))
      else st;
    PutCursor(st1, c, cur.(onLine := [b], lineStarts := [b]))
  }

  /** The first box of a later line: it starts the line and extends the
      line-start chain. */
  function StartLine(st: State, c: CursorId, b: BoxId): (st': State)
    requires Valid(st) && c < |st.cursors| && b < |st.boxes| && |st.cursors[c].lineStarts| > 0
    ensures Valid(st') && SameShape(st, st') && |st'.boxes| == |st.boxes| && st'.renders == st.renders
    ensures var cur := st.cursors[c];
            var last := cur.lineStarts[|cur.lineStarts| - 1];
            && st'.cursors == st.cursors[c := cur.(onLine := [b], lineStarts := cur.lineStarts + [b])]
            && st'.boxes == st.boxes[last := st.boxes[last].(nextLineStart := Some(b))]
  {
    var cur := st.cursors[c];
    var last := cur.lineStarts[|cur.lineStarts| - 1];
    var st1 := PutBox(st, last, st.boxes[last].(nextLineStart := Some(b)));
    AllInSnoc(cur.lineStarts, b, st1.boxes);
    PutCursor(st1, c, cur.(onLine := [b], lineStarts := cur.lineStarts + [b]))
  }

  /** A later box of a line: the line's last box links to it. */
  function ExtendLine(st: State, c: CursorId, b: BoxId): (st': State)
    requires Valid(st) && c < |st.cursors| && b < |st.boxes|
    ensures Valid(st') && SameShape(st, st') && |st'.boxes| == |st.boxes| && st'.renders == st.renders
    ensures var cur := st.cursors[c];
            && st'.cursors == st.cursors[c := cur.(onLine := cur.onLine + [b])]
            && st'.boxes == LinkOnLine(st.boxes, cur.onLine, b)
  {
    var cur := st.cursors[c];
    var st1 := PutBoxes(st, LinkOnLine(st.boxes, cur.onLine, b));
    AllInSnoc(cur.onLine, b, st1.boxes);
    PutCursor(st1, c, cur.(onLine := cur.onLine + [b]))
  }

  /** In flow: append to the current line; the first box of a line also extends
      the line-start chain, and the very first becomes the parent's first child. */
  function QueueOnLine(st: State, c: CursorId, b: BoxId): (st': State)
    requires Valid(st) && c < |st.cursors| && b < |st.boxes|
    ensures Valid(st') && SameShape(st, st') && |st'.boxes| == |st.boxes|
    ensures st'.renders == st.renders
    ensures var cur := st.cursors[c];
            st'.cursors == st.cursors[c := cur.(onLine := cur.onLine + [b],
              lineStarts := if |cur.onLine| == 0 then cur.lineStarts + [b] else cur.lineStarts)]
    ensures st'.boxes[b].(nextOnLine := None, nextLineStart := None, firstChild := None)
            == st.boxes[b].(nextOnLine := None, nextLineStart := None, firstChild := None)
    ensures b !in st.cursors[c].onLine && b !in st.cursors[c].lineStarts ==>
              st'.boxes[b] == st.boxes[b].(firstChild := st'.boxes[b].firstChild)
    ensures ElementChainsKept(st.boxes, st'.boxes)
  {
    var cur := st.cursors[c];
    if |cur.onLine| == 0 then
      assert cur.onLine + [b] == [b];
      if |cur.lineStarts| == 0 then
        assert cur.lineStarts + [b] == [b];
        StartFirstLine(st, c, b)
      else
        StartLine(st, c, b)
    else
      ExtendLine(st, c, b)
  }

  /** `AddToLine`: clear the box's line links, then queue it on the out-of-flow
      list, on the active floats, or on the current line. Only the out-of-flow
      branch reads `PenY`, so only it can fault. */
  function AddToLine(st: State, c: CursorId, b: BoxId): (r: Result<State, Fault>)
    requires Valid(st) && c < |st.cursors| && b < |st.boxes|
    ensures r.Failure? <==> !st.boxes[b].InFlow() && Owner(st, c).Failure?
    ensures r.Success? ==> Valid(r.value) && SameShape(st, r.value)
    ensures r.Success? ==> |r.value.boxes| == |st.boxes| && r.value.renders == st.renders
    ensures r.Success? ==> forall x :: 0 <= x < |st.cursors| && x != c ==> r.value.cursors[x] == st.cursors[x]
    ensures r.Success? ==> OnlyListsChanged(st.cursors[c], r.value.cursors[c])
    ensures r.Success? ==> ElementChainsKept(st.boxes, r.value.boxes)
  {
    var cleared := PutBox(st, b, st.boxes[b].(nextLineStart := None, nextOnLine := None));
    var box := cleared.boxes[b];
    if !box.InFlow() then
      var penY :- PenY(st, c);
      Success(QueueOutOfFlow(cleared, c, b, penY))
    else if box.floatMode != NoFloat then
      Success(QueueFloat(cleared, c, b))
    else
      Success(QueueOnLine(cleared, c, b))
  }

  /** Where `AddToLine` puts a box: an out-of-flow box goes on the out-of-flow list
      at the pen plus its margin; a floated box goes only on the active floats; any
      other box is appended to the current line, and the first box of a line is
      also appended to the line-start chain. */
  lemma AddToLineDestination(st: State, c: CursorId, b: BoxId)
    requires Valid(st) && c < |st.cursors| && b < |st.boxes|
    requires AddToLine(st, c, b).Success?
    ensures var cur := st.cursors[c];
            var st' := AddToLine(st, c, b).value;
            var cur' := st'.cursors[c];
            var box := st.boxes[b];
            && (!box.InFlow() ==>
                  && cur'.outOfFlow == cur.outOfFlow + [b]
                  && cur'.onLine == cur.onLine && cur'.activeFloats == cur.activeFloats
                  && cur'.lineStarts == cur.lineStarts
                  && st'.boxes[b].parentOffsetLeft == cur.penX + box.margin.left
                  && st'.boxes[b].parentOffsetTop == PenY(st, c).value + box.margin.top)
            && (box.InFlow() && box.floatMode != NoFloat ==>
                  && cur'.activeFloats == cur.activeFloats + [b]
                  && cur'.onLine == cur.onLine && cur'.outOfFlow == cur.outOfFlow
                  && cur'.lineStarts == cur.lineStarts)
            && (box.InFlow() && box.floatMode == NoFloat ==>
                  && cur'.onLine == cur.onLine + [b]
                  && cur'.lineStarts == (if |cur.onLine| == 0 then cur.lineStarts + [b] else cur.lineStarts)
                  && cur'.outOfFlow == cur.outOfFlow && cur'.activeFloats == cur.activeFloats)
  {
  }

  /** The first in-flow box of the first line becomes the first child of the
      parent cursor's current box. */
  lemma AddToLineFirstChild(st: State, c: CursorId, b: BoxId)
    requires Valid(st) && c < |st.cursors| && b < |st.boxes|
    requires st.boxes[b].InFlow() && st.boxes[b].floatMode == NoFloat
    requires var cur := st.cursors[c]; |cur.onLine| == 0 && |cur.lineStarts| == 0
    requires var cur := st.cursors[c]; cur.parent.Some? && st.cursors[cur.parent.value].currentBox.Some?
    ensures var pb := st.cursors[st.cursors[c].parent.value].currentBox.value;
            AddToLine(st, c, b).Success? && AddToLine(st, c, b).value.boxes[pb].firstChild == Some(b)
  {
  }

  /** Apart from its links, the box keeps every field except, out of flow, its offsets. */
  lemma AddToLineKeepsBox(st: State, c: CursorId, b: BoxId)
    requires Valid(st) && c < |st.cursors| && b < |st.boxes|
    requires var cur := st.cursors[c]; b !in cur.onLine && b !in cur.outOfFlow && b !in cur.lineStarts
    requires AddToLine(st, c, b).Success?
    ensures var nb := AddToLine(st, c, b).value.boxes[b];
            var ob := st.boxes[b];
            && nb.nextOnLine == None && nb.nextLineStart == None
            && nb.(nextOnLine := ob.nextOnLine, nextLineStart := ob.nextLineStart, firstChild := ob.firstChild,
                   parentOffsetLeft := ob.parentOffsetLeft, parentOffsetTop := ob.parentOffsetTop) == ob
            && (ob.InFlow() ==> nb.parentOffsetLeft == ob.parentOffsetLeft && nb.parentOffsetTop == ob.parentOffsetTop)
  {
    var cleared := PutBox(st, b, st.boxes[b].(nextLineStart := None, nextOnLine := None));
    assert cleared.cursors == st.cursors;
  }

  /** A box not yet queued on the cursor ends up in exactly one of its three
      destinations. */
  lemma AddToLineExactlyOnePlace(st: State, c: CursorId, b: BoxId)
    requires Valid(st) && c < |st.cursors| && b < |st.boxes|
    requires var cur := st.cursors[c]; b !in cur.onLine && b !in cur.outOfFlow && b !in cur.activeFloats
    requires AddToLine(st, c, b).Success?
    ensures var cur' := AddToLine(st, c, b).value.cursors[c];
            && (b in cur'.onLine ==> b !in cur'.outOfFlow && b !in cur'.activeFloats)
            && (b in cur'.outOfFlow ==> b !in cur'.onLine && b !in cur'.activeFloats)
            && (b in cur'.activeFloats ==> b !in cur'.onLine && b !in cur'.outOfFlow)
            && (b in cur'.onLine || b in cur'.outOfFlow || b in cur'.activeFloats)
  {
    AddToLineDestination(st, c, b);
  }

  // ---------------------------------------------------------------------------
  // The list views agree with the boxes' links.
  // ---------------------------------------------------------------------------

  lemma NoDupInsert(a: seq<BoxId>, x: BoxId, d: seq<BoxId>)
    requires NoDup(a + d) && x !in a && x !in d
    ensures NoDup(a + [x] + d)
  {
    var s := a + d;
    var s' := a + [x] + d;
    forall i, j | 0 <= i < j < |s'|
      ensures s'[i] != s'[j]
    {
      var n := |a|;
      if i < n {
        assert s'[i] == s[i] && s'[i] == a[i];
        if j < n { assert s'[j] == s[j]; }
        else if j > n { assert s'[j] == s[j - 1]; }
      } else if i == n {
        assert s'[j] == d[j - n - 1];
      } else {
        assert s'[i] == s[i - 1] && s'[j] == s[j - 1];
      }
    }
  }

  /** The two halves of a duplicate-free concatenation share no element. */
  lemma NoDupDisjoint(a: seq<BoxId>, d: seq<BoxId>, x: BoxId)
    requires NoDup(a + d) && x in a
    ensures x !in d
  {
    var i :| 0 <= i < |a| && a[i] == x;
    assert (a + d)[i] == x;
    forall j | 0 <= j < |d|
      ensures d[j] != x
    {
      assert (a + d)[|a| + j] == d[j];
    }
  }

  lemma NoDupSnoc(a: seq<BoxId>, x: BoxId)
    requires NoDup(a) && x !in a
    ensures NoDup(a + [x])
  {
    NoDupInsert(a, x, []);
    assert a + [x] + [] == a + [x];
  }

  lemma OnLineChainAppend(boxes: seq<Box>, ids: seq<BoxId>, b: BoxId)
    requires OnLineChain(boxes, ids) && b < |boxes| && b !in ids
    requires boxes[b].nextOnLine == None
    ensures OnLineChain(LinkOnLine(boxes, ids, b), ids + [b])
  {
    var r := LinkOnLine(boxes, ids, b);
    var ids' := ids + [b];
    AllInSnoc(ids, b, boxes);
    forall i | 0 <= i < |ids'| - 1
      ensures r[ids'[i]].nextOnLine == Some(ids'[i + 1])
    {
      if i < |ids| - 1 {
        assert ids'[i] == ids[i] && ids'[i + 1] == ids[i + 1];
        assert ids[i] != ids[|ids| - 1];
      }
    }
  }

  /** Updating a box outside a chain leaves the chain intact. */
  lemma ChainsFrame(boxes: seq<Box>, boxes': seq<Box>, ids: seq<BoxId>)
    requires |boxes'| == |boxes|
    requires forall i :: 0 <= i < |ids| ==> ids[i] < |boxes| && boxes'[ids[i]].nextOnLine == boxes[ids[i]].nextOnLine
    ensures OnLineChain(boxes, ids) ==> OnLineChain(boxes', ids)
  {
  }

  lemma StartChainFrame(boxes: seq<Box>, boxes': seq<Box>, ids: seq<BoxId>)
    requires |boxes'| == |boxes|
    requires forall i :: 0 <= i < |ids| ==> ids[i] < |boxes| && boxes'[ids[i]].nextLineStart == boxes[ids[i]].nextLineStart
    ensures LineStartChain(boxes, ids) ==> LineStartChain(boxes', ids)
  {
  }

  lemma ClearKeepsLinks(st: State, c: CursorId, b: BoxId)
    requires Valid(st) && c < |st.cursors| && b < |st.boxes| && LinksAgree(st, c)
    requires var cur := st.cursors[c]; b !in cur.onLine && b !in cur.outOfFlow && b !in cur.lineStarts
    ensures LinksAgree(PutBox(st, b, st.boxes[b].(nextLineStart := None, nextOnLine := None)), c)
  {
    var cur := st.cursors[c];
    var st' := PutBox(st, b, st.boxes[b].(nextLineStart := None, nextOnLine := None));
    ChainsFrame(st.boxes, st'.boxes, cur.onLine);
    ChainsFrame(st.boxes, st'.boxes, cur.outOfFlow);
    StartChainFrame(st.boxes, st'.boxes, cur.lineStarts);
  }

  lemma QueueOutOfFlowKeepsLinks(st: State, c: CursorId, b: BoxId, penY: real)
    requires Valid(st) && c < |st.cursors| && b < |st.boxes| && LinksAgree(st, c)
    requires var cur := st.cursors[c]; b !in cur.onLine && b !in cur.outOfFlow && b !in cur.lineStarts
    requires st.boxes[b].nextOnLine == None
    ensures LinksAgree(QueueOutOfFlow(st, c, b, penY), c)
  {
    var cur := st.cursors[c];
    var st' := QueueOutOfFlow(st, c, b, penY);
    var linked := LinkOnLine(st.boxes, cur.outOfFlow, b);
    OnLineChainAppend(st.boxes, cur.outOfFlow, b);
    assert OnLineChain(st'.boxes, cur.outOfFlow + [b]) by {
      ChainsFrame(linked, st'.boxes, cur.outOfFlow + [b]);
    }
    if |cur.outOfFlow| > 0 {
      var last := cur.outOfFlow[|cur.outOfFlow| - 1];
      if last in cur.onLine {
        NoDupDisjoint(cur.onLine, cur.outOfFlow, last);
      }
    }
    ChainsFrame(st.boxes, st'.boxes, cur.onLine);
    StartChainFrame(st.boxes, st'.boxes, cur.lineStarts);
    NoDupInsert(cur.onLine + cur.outOfFlow, b, []);
    assert cur.onLine + (cur.outOfFlow + [b]) == cur.onLine + cur.outOfFlow + [b] + [];
  }

  lemma StartFirstLineKeepsLinks(st: State, c: CursorId, b: BoxId)
    requires Valid(st) && c < |st.cursors| && b < |st.boxes| && LinksAgree(st, c)
    requires var cur := st.cursors[c]; |cur.onLine| == 0 && |cur.lineStarts| == 0 && b !in cur.outOfFlow
    requires st.boxes[b].nextOnLine == None && st.boxes[b].nextLineStart == None
    ensures LinksAgree(StartFirstLine(st, c, b), c)
  {
    var cur := st.cursors[c];
    var st' := StartFirstLine(st, c, b);
    ChainsFrame(st.boxes, st'.boxes, cur.outOfFlow);
    NoDupInsert([], b, cur.outOfFlow);
    assert [b] + cur.outOfFlow == [] + [b] + cur.outOfFlow;
  }

  lemma StartLineKeepsLinks(st: State, c: CursorId, b: BoxId)
    requires Valid(st) && c < |st.cursors| && b < |st.boxes| && LinksAgree(st, c)
    requires var cur := st.cursors[c]; |cur.onLine| == 0 && |cur.lineStarts| > 0
    requires var cur := st.cursors[c]; b !in cur.outOfFlow && b !in cur.lineStarts
    requires st.boxes[b].nextOnLine == None && st.boxes[b].nextLineStart == None
    ensures LinksAgree(StartLine(st, c, b), c)
  {
    var cur := st.cursors[c];
    var st' := StartLine(st, c, b);
    var last := cur.lineStarts[|cur.lineStarts| - 1];
    var ls' := cur.lineStarts + [b];
    ChainsFrame(st.boxes, st'.boxes, cur.outOfFlow);
    AllInSnoc(cur.lineStarts, b, st'.boxes);
    forall i | 0 <= i < |ls'| - 1
      ensures st'.boxes[ls'[i]].nextLineStart == Some(ls'[i + 1])
    {
      if i < |cur.lineStarts| - 1 {
        assert ls'[i] == cur.lineStarts[i] && ls'[i + 1] == cur.lineStarts[i + 1];
        assert cur.lineStarts[i] != last;
      }
    }
    assert st'.boxes[b].nextLineStart == None;
    NoDupSnoc(cur.lineStarts, b);
    NoDupInsert([], b, cur.outOfFlow);
    assert [b] + cur.outOfFlow == [] + [b] + cur.outOfFlow;
  }

  lemma ExtendLineKeepsLinks(st: State, c: CursorId, b: BoxId)
    requires Valid(st) && c < |st.cursors| && b < |st.boxes| && LinksAgree(st, c)
    requires var cur := st.cursors[c]; |cur.onLine| > 0 && b !in cur.onLine && b !in cur.outOfFlow && b !in cur.lineStarts
    requires st.boxes[b].nextOnLine == None
    ensures LinksAgree(ExtendLine(st, c, b), c)
  {
    var cur := st.cursors[c];
    var st' := ExtendLine(st, c, b);
    OnLineChainAppend(st.boxes, cur.onLine, b);
    var last := cur.onLine[|cur.onLine| - 1];
    NoDupDisjoint(cur.onLine, cur.outOfFlow, last);
    ChainsFrame(st.boxes, st'.boxes, cur.outOfFlow);
    StartChainFrame(st.boxes, st'.boxes, cur.lineStarts);
    NoDupInsert(cur.onLine, b, cur.outOfFlow);
    assert (cur.onLine + [b]) + cur.outOfFlow == cur.onLine + [b] + cur.outOfFlow;
  }

  lemma QueueOnLineKeepsLinks(st: State, c: CursorId, b: BoxId)
    requires Valid(st) && c < |st.cursors| && b < |st.boxes| && LinksAgree(st, c)
    requires var cur := st.cursors[c]; b !in cur.onLine && b !in cur.outOfFlow && b !in cur.lineStarts
    requires st.boxes[b].nextOnLine == None && st.boxes[b].nextLineStart == None
    ensures LinksAgree(QueueOnLine(st, c, b), c)
  {
    var cur := st.cursors[c];
    if |cur.onLine| == 0 {
      if |cur.lineStarts| == 0 {
        StartFirstLineKeepsLinks(st, c, b);
      } else {
        StartLineKeepsLinks(st, c, b);
      }
    } else {
      ExtendLineKeepsLinks(st, c, b);
    }
  }

  /** Queueing a box that is on none of the cursor's lists keeps the list views
      and the boxes' `NextOnLine`/`NextLineStart` links in agreement. */
  lemma AddToLineKeepsLinks(st: State, c: CursorId, b: BoxId)
    requires Valid(st) && c < |st.cursors| && b < |st.boxes|
    requires LinksAgree(st, c)
    requires var cur := st.cursors[c]; b !in cur.onLine && b !in cur.outOfFlow && b !in cur.lineStarts
    requires AddToLine(st, c, b).Success?
    ensures LinksAgree(AddToLine(st, c, b).value, c)
  {
    var cleared := PutBox(st, b, st.boxes[b].(nextLineStart := None, nextOnLine := None));
    ClearKeepsLinks(st, c, b);
    if !st.boxes[b].InFlow() {
      QueueOutOfFlowKeepsLinks(cleared, c, b, PenY(st, c).value);
    } else if st.boxes[b].floatMode == NoFloat {
      QueueOnLineKeepsLinks(cleared, c, b);
    }
  }

  // ---------------------------------------------------------------------------
  // AdvancePen
  // ---------------------------------------------------------------------------

  /** Which edge a float reserves: `LineStart` for a right float going leftwards
      and for a left float going rightwards, `MaxX` otherwise. */
  predicate ReservesLineStart(side: FloatMode, goingLeftwards: bool)
  {
    side.Right? == goingLeftwards
  }

  /** The boxes the left-float walk visits: those before the first occurrence of
      `stop` (all of them when `stop` is absent). */
  function Before(line: seq<BoxId>, stop: BoxId): (p: seq<BoxId>)
    ensures |p| <= |line| && p == line[..|p|]
    ensures stop !in p
    ensures |p| < |line| ==> line[|p|] == stop
  {
    if |line| == 0 || line[0] == stop then [] else [line[0]] + Before(line[1..], stop)
  }

  /** One step of the walk: a non-floated box moves right by `w`; a floated one stays. */
  function Shift(box: Box, w: real): Box
  {
    if box.floatMode == NoFloat then box.(parentOffsetLeft := box.parentOffsetLeft + w) else box
  }

  /** The walk from `FirstOnLine` up to the floated box: every box visited is shifted. */
  function ShiftBefore(boxes: seq<Box>, line: seq<BoxId>, stop: BoxId, w: real): (r: seq<Box>)
    requires AllIn(line, |boxes|)
    ensures |r| == |boxes|
    decreases |line|
  {
    if |line| == 0 || line[0] == stop then boxes
    else
      var x := line[0];
      ShiftBefore(boxes[x := Shift(boxes[x], w)], line[1..], stop, w)
  }

  /** The walk shifts each box before `stop` once (the line holding no box twice)
      and touches nothing else. */
  lemma {:induction false} ShiftBeforeEffect(boxes: seq<Box>, line: seq<BoxId>, stop: BoxId, w: real)
    requires AllIn(line, |boxes|)
    ensures forall x :: 0 <= x < |boxes| && x !in Before(line, stop) ==> ShiftBefore(boxes, line, stop, w)[x] == boxes[x]
    ensures NoDup(line) ==> forall x :: x in Before(line, stop) ==> ShiftBefore(boxes, line, stop, w)[x] == Shift(boxes[x], w)
    decreases |line|
  {
    if |line| == 0 || line[0] == stop {
    } else {
      var x := line[0];
      var boxes' := boxes[x := Shift(boxes[x], w)];
      var rest := line[1..];
      assert Before(line, stop) == [x] + Before(rest, stop);
      assert AllIn(rest, |boxes'|) by {
        forall i | 0 <= i < |rest| ensures rest[i] < |boxes'| { assert rest[i] == line[i + 1]; }
      }
      ShiftBeforeEffect(boxes', rest, stop, w);
      if NoDup(line) {
        assert NoDup(rest) by {
          forall i, j | 0 <= i < j < |rest| ensures rest[i] != rest[j] {
            assert rest[i] == line[i + 1] && rest[j] == line[j + 1];
          }
        }
        assert x !in rest by {
          forall i | 0 <= i < |rest| ensures rest[i] != x { assert rest[i] == line[i + 1]; }
        }
        assert x !in Before(rest, stop);
      }
    }
  }

  /** The left-float walk over cursor `c`'s current line. */
  function ShiftLine(st: State, c: CursorId, stop: BoxId, w: real): (st': State)
    requires Valid(st) && c < |st.cursors|
    ensures Valid(st') && SameShape(st, st')
    ensures st'.boxes == ShiftBefore(st.boxes, st.cursors[c].onLine, stop, w)
    ensures st'.cursors == st.cursors && st'.renders == st.renders
  {
    PutBoxes(st, ShiftBefore(st.boxes, st.cursors[c].onLine, stop, w))
  }

  /** The float edge at the line start: the box sits at `LineStart`, the pen
      moves past its total width and `LineStart` moves past its width. */
  function ReserveLineStart(st: State, c: CursorId, b: BoxId): (st': State)
    requires Valid(st) && c < |st.cursors| && b < |st.boxes|
    ensures Valid(st') && SameShape(st, st')
    ensures var cur := st.cursors[c];
            var box := st.boxes[b];
            && st'.boxes == st.boxes[b := box.(parentOffsetLeft := cur.lineStart)]
            && st'.cursors == st.cursors[c := cur.(penX := cur.penX + box.totalWidth,
                                                   lineStart := cur.lineStart + box.width)]
    ensures st'.renders == st.renders
  {
    var cur := st.cursors[c];
    var box := st.boxes[b];
    var st1 := PutBox(st, b, box.(parentOffsetLeft := cur.lineStart));
    PutCursor(st1, c, cur.(penX := cur.penX + box.totalWidth, lineStart := cur.lineStart + box.width))
  }

  /** The float edge at `MaxX`: the box sits its total width before `MaxX`, and
      `MaxX` (the owner's storage) shrinks by its width. */
  function ReserveMaxX(st: State, c: CursorId, b: BoxId, o: CursorId): (st': State)
    requires Valid(st) && c < |st.cursors| && b < |st.boxes|
    requires o < |st.cursors| && !st.cursors[o].kind.Inline?
    ensures Valid(st') && SameShape(st, st')
    ensures var fs := st.cursors[o].kind.own;
            var box := st.boxes[b];
            && st'.boxes == st.boxes[b := box.(parentOffsetLeft := fs.maxX - box.totalWidth)]
            && st'.cursors == st.cursors[o := st.cursors[o].(kind := st.cursors[o].kind.(own := fs.(maxX := fs.maxX - box.width)))]
    ensures st'.renders == st.renders
  {
    var fs := st.cursors[o].kind.own;
    var box := st.boxes[b];
    var st1 := PutBox(st, b, box.(parentOffsetLeft := fs.maxX - box.totalWidth));
    SetOwn(st1, o, fs.(maxX := fs.maxX - box.width))
  }

  /** A non-floated box: left to right it sits at the pen plus its left margin;
      right to left it is mirrored about `LineStart` from the pen after its width
      and right margin. Either way the pen passes its whole margin box, and the
      line height rises to the box's effective height. */
  function AdvanceInFlow(st: State, c: CursorId, b: BoxId, goingLeftwards: bool): (st': State)
    requires Valid(st) && c < |st.cursors| && b < |st.boxes|
    ensures Valid(st') && SameShape(st, st')
    ensures |st'.boxes| == |st.boxes| && st'.renders == st.renders
  {
    var cur := st.cursors[c];
    var box := st.boxes[b];
    var offset :=
      if goingLeftwards then 2.0 * cur.lineStart - (cur.penX + box.width + box.margin.right)
      else cur.penX + box.margin.left;
    var st1 := PutBox(st, b, box.(parentOffsetLeft := offset));
    PutCursor(st1, c, cur.(penX := cur.penX + box.margin.left + box.width + box.margin.right,
                           lineHeight := Max(cur.lineHeight, EffectiveHeight(box, goingLeftwards))))
  }

  /** A left float: reserve its width, then, unless it is the first box on the
      line, walk the line from its start up to the float. */
  function AdvanceLeftFloat(st: State, c: CursorId, b: BoxId, o: CursorId): (st': State)
    requires Valid(st) && c < |st.cursors| && b < |st.boxes|
    requires o < |st.cursors| && !st.cursors[o].kind.Inline?
    ensures Valid(st') && SameShape(st, st')
    ensures |st'.boxes| == |st.boxes| && st'.renders == st.renders
    ensures var reserved := if st.cursors[o].kind.own.goingLeftwards then ReserveMaxX(st, c, b, o)
                            else ReserveLineStart(st, c, b);
            && st'.cursors == reserved.cursors
            && st'.boxes == (if |st.cursors[c].onLine| == 0 || st.cursors[c].onLine[0] != b
                             then ShiftBefore(reserved.boxes, st.cursors[c].onLine, b, st.boxes[b].width)
                             else reserved.boxes)
  {
    var cur := st.cursors[c];
    var st1 := if st.cursors[o].kind.own.goingLeftwards then ReserveMaxX(st, c, b, o) else ReserveLineStart(st, c, b);
    assert st1.cursors[c].onLine == cur.onLine;
    if |cur.onLine| == 0 || cur.onLine[0] != b then ShiftLine(st1, c, b, st.boxes[b].width) else st1
  }

  /** `AdvancePen`: place the box horizontally and move the pen, by float side and
      direction. A float reserves its width at one edge; a left float also pushes
      the non-floated boxes already on the line right by its width. Every branch
      reads `GoingLeftwards`, so the call faults exactly when the owner cannot be
      resolved. */
  function AdvancePen(st: State, c: CursorId, b: BoxId): (r: Result<State, Fault>)
    requires Valid(st) && c < |st.cursors| && b < |st.boxes|
    ensures r.Failure? <==> Owner(st, c).Failure?
    ensures r.Success? ==> Valid(r.value) && SameShape(st, r.value)
    ensures r.Success? ==> |r.value.boxes| == |st.boxes| && r.value.renders == st.renders
  {
    var o :- Owner(st, c);
    var fs := st.cursors[o].kind.own;
    var cur := st.cursors[c];
    var box := st.boxes[b];
    match box.floatMode
    case Right =>
      Success(if fs.goingLeftwards then ReserveLineStart(st, c, b) else ReserveMaxX(st, c, b, o))
    case Left =>
      Success(AdvanceLeftFloat(st, c, b, o))
    case NoFloat =>
      Success(AdvanceInFlow(st, c, b, fs.goingLeftwards))
  }

  /** A non-floated box: the pen advances by exactly its margin-box width; it
      sits at the old pen plus its left margin left to right, and at
      `2*LineStart - (old pen + width + right margin)` right to left; the line
      height becomes the larger of its old value and the box's effective height;
      `LineStart`, the delegated storage and every other box are unchanged. */
  lemma AdvancePenInFlow(st: State, c: CursorId, b: BoxId)
    requires Valid(st) && c < |st.cursors| && b < |st.boxes|
    requires st.boxes[b].floatMode == NoFloat
    requires AdvancePen(st, c, b).Success?
    ensures var st' := AdvancePen(st, c, b).value;
            var cur := st.cursors[c];
            var cur' := st'.cursors[c];
            var box := st.boxes[b];
            var fs := FlowOf(st, c).value;
            && cur' == cur.(penX := cur'.penX, lineHeight := cur'.lineHeight)
            && cur'.penX == cur.penX + box.margin.left + box.width + box.margin.right
            && st'.boxes[b].parentOffsetLeft ==
                 (if fs.goingLeftwards then 2.0 * cur.lineStart - (cur.penX + box.width + box.margin.right)
                  else cur.penX + box.margin.left)
            && cur'.lineHeight == Max(cur.lineHeight, EffectiveHeight(box, fs.goingLeftwards))
            && st'.boxes[b] == box.(parentOffsetLeft := st'.boxes[b].parentOffsetLeft)
            && FlowOf(st', c) == Success(fs)
            && (forall x :: 0 <= x < |st.boxes| && x != b ==> st'.boxes[x] == st.boxes[x])
            && (forall x :: 0 <= x < |st.cursors| && x != c ==> st'.cursors[x] == st.cursors[x])
  {
    var st' := AdvancePen(st, c, b).value;
    OwnerSameShape(st, st', c, |st.cursors|);
  }

  /** A float reserves its width at exactly one edge — `LineStart` when
      `ReservesLineStart` holds, the owner's `MaxX` otherwise — and leaves the line
      height alone. */
  lemma AdvancePenFloatReserves(st: State, c: CursorId, b: BoxId, st': State)
    requires Valid(st) && c < |st.cursors| && b < |st.boxes|
    requires st.boxes[b].floatMode != NoFloat
    requires AdvancePen(st, c, b) == Success(st')
    ensures |st'.boxes| == |st.boxes| && |st'.cursors| == |st.cursors|
    ensures var cur := st.cursors[c];
            var cur' := st'.cursors[c];
            var box := st.boxes[b];
            var fs := FlowOf(st, c).value;
            && cur'.lineHeight == cur.lineHeight
            && cur'.onLine == cur.onLine && cur'.outOfFlow == cur.outOfFlow
            && cur'.activeFloats == cur.activeFloats && cur'.lineStarts == cur.lineStarts
            && st'.boxes[b] == box.(parentOffsetLeft := st'.boxes[b].parentOffsetLeft)
            && (ReservesLineStart(box.floatMode, fs.goingLeftwards) ==>
                  && cur'.lineStart == cur.lineStart + box.width
                  && cur'.penX == cur.penX + box.totalWidth
                  && st'.boxes[b].parentOffsetLeft == cur.lineStart
                  && FlowOf(st', c) == Success(fs))
            && (!ReservesLineStart(box.floatMode, fs.goingLeftwards) ==>
                  && cur'.lineStart == cur.lineStart
                  && cur'.penX == cur.penX
                  && st'.boxes[b].parentOffsetLeft == fs.maxX - box.totalWidth
                  && FlowOf(st', c) == Success(fs.(maxX := fs.maxX - box.width)))
  {
    var o := Owner(st, c).value;
    AdvancePenFloatIsReserve(st, c, b, o, st');
    OwnerSameShape(st, st', c, |st.cursors|);
  }

  /** The reservation a float makes, at the edge `ReservesLineStart` picks. */
  function Reserve(st: State, c: CursorId, b: BoxId, o: CursorId): (st': State)
    requires Valid(st) && c < |st.cursors| && b < |st.boxes|
    requires o < |st.cursors| && !st.cursors[o].kind.Inline?
    ensures Valid(st') && SameShape(st, st')
  {
    if ReservesLineStart(st.boxes[b].floatMode, st.cursors[o].kind.own.goingLeftwards) then ReserveLineStart(st, c, b)
    else ReserveMaxX(st, c, b, o)
  }

  /** On the cursors and on the float itself, `AdvancePen` of a float is its
      reservation; only the left-float walk touches other boxes. */
  lemma AdvancePenFloatIsReserve(st: State, c: CursorId, b: BoxId, o: CursorId, st': State)
    requires Valid(st) && c < |st.cursors| && b < |st.boxes|
    requires st.boxes[b].floatMode != NoFloat
    requires Owner(st, c) == Success(o) && AdvancePen(st, c, b) == Success(st')
    ensures st'.cursors == Reserve(st, c, b, o).cursors
    ensures st'.boxes[b] == Reserve(st, c, b, o).boxes[b]
  {
    if st.boxes[b].floatMode == Left {
      var reserved := Reserve(st, c, b, o);
      ShiftBeforeEffect(reserved.boxes, st.cursors[c].onLine, b, st.boxes[b].width);
    }
  }

  /** A left float pushes every non-floated box queued before it on the line right
      by exactly its width; floated boxes there, and all boxes not before it, keep
      their places. */
  lemma LeftFloatShiftsEarlierBoxes(st: State, c: CursorId, b: BoxId, st': State)
    requires Valid(st) && c < |st.cursors| && b < |st.boxes|
    requires st.boxes[b].floatMode == Left && NoDup(st.cursors[c].onLine)
    requires AdvancePen(st, c, b) == Success(st')
    ensures |st'.boxes| == |st.boxes|
    ensures var line := st.cursors[c].onLine;
            var w := st.boxes[b].width;
            && (forall x :: x in Before(line, b) && st.boxes[x].floatMode == NoFloat ==>
                  st'.boxes[x] == st.boxes[x].(parentOffsetLeft := st.boxes[x].parentOffsetLeft + w))
            && (forall x :: x in Before(line, b) && st.boxes[x].floatMode != NoFloat ==> st'.boxes[x] == st.boxes[x])
            && (forall x :: 0 <= x < |st.boxes| && x != b && x !in Before(line, b) ==> st'.boxes[x] == st.boxes[x])
  {
    var line := st.cursors[c].onLine;
    var o := Owner(st, c).value;
    var reserved := Reserve(st, c, b, o);
    LeftFloatBoxes(st, c, b, o, st');
    assert forall x :: 0 <= x < |st.boxes| && x != b ==> reserved.boxes[x] == st.boxes[x];
    ShiftBeforeEffect(reserved.boxes, line, b, st.boxes[b].width);
    if |line| > 0 && line[0] == b {
      assert Before(line, b) == [];
    } else {
      assert CursorValid(st.cursors[c], |st.boxes|, |st.cursors|, |st.renders|);
      forall x | x in Before(line, b)
        ensures st'.boxes[x] == Shift(st.boxes[x], st.boxes[b].width)
      {
        assert x in line && x != b;
      }
    }
  }

  /** The boxes after a left float: its reservation, then the walk over the
      line unless the float is the line's first box. */
  lemma LeftFloatBoxes(st: State, c: CursorId, b: BoxId, o: CursorId, st': State)
    requires Valid(st) && c < |st.cursors| && b < |st.boxes|
    requires st.boxes[b].floatMode == Left
    requires Owner(st, c) == Success(o) && AdvancePen(st, c, b) == Success(st')
    ensures var line := st.cursors[c].onLine;
            var reserved := Reserve(st, c, b, o).boxes;
            st'.boxes == if |line| == 0 || line[0] != b then ShiftBefore(reserved, line, b, st.boxes[b].width) else reserved
  {
  }

  /** The line height never decreases. */
  lemma AdvancePenLineHeightGrows(st: State, c: CursorId, b: BoxId)
    requires Valid(st) && c < |st.cursors| && b < |st.boxes|
    requires AdvancePen(st, c, b).Success?
    ensures AdvancePen(st, c, b).value.cursors[c].lineHeight >= st.cursors[c].lineHeight
  {
    if st.boxes[b].floatMode == NoFloat {
      AdvancePenInFlow(st, c, b);
    } else {
      AdvancePenFloatReserves(st, c, b, AdvancePen(st, c, b).value);
    }
  }

  /** Right to left mirrors left to right about `LineStart`: with everything else
      equal, the pen ends at the same place, and the two offsets of the box add up
      to `2*LineStart - Width + (Margin.Left - Margin.Right)`; with equal side
      margins the two placements are reflections of each other. */
  lemma RightToLeftMirrors(st: State, c: CursorId, b: BoxId)
    requires Valid(st) && c < |st.cursors| && b < |st.boxes|
    requires st.boxes[b].floatMode == NoFloat
    requires FlowOf(st, c).Success?
    ensures var fs := FlowOf(st, c).value;
            var ltr := WithFlow(st, c, fs.(goingLeftwards := false)).value;
            var rtl := WithFlow(st, c, fs.(goingLeftwards := true)).value;
            var box := st.boxes[b];
            var lineStart := st.cursors[c].lineStart;
            && AdvancePen(ltr, c, b).Success? && AdvancePen(rtl, c, b).Success?
            && AdvancePen(ltr, c, b).value.cursors[c].penX == AdvancePen(rtl, c, b).value.cursors[c].penX
            && AdvancePen(ltr, c, b).value.boxes[b].parentOffsetLeft
               + AdvancePen(rtl, c, b).value.boxes[b].parentOffsetLeft
               == 2.0 * lineStart - box.width + (box.margin.left - box.margin.right)
  {
    var fs := FlowOf(st, c).value;
    var ltr := WithFlow(st, c, fs.(goingLeftwards := false)).value;
    var rtl := WithFlow(st, c, fs.(goingLeftwards := true)).value;
    ReadAfterWrite(st, c, fs.(goingLeftwards := false));
    ReadAfterWrite(st, c, fs.(goingLeftwards := true));
    WriteTouchesOnlyOwner(st, c, fs.(goingLeftwards := false));
    WriteTouchesOnlyOwner(st, c, fs.(goingLeftwards := true));
    AdvancePenInFlow(ltr, c, b);
    AdvancePenInFlow(rtl, c, b);
  }
}
