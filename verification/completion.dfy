/** Finishing a line (`CompleteLine`): vertical alignment of the queued boxes,
    releasing passed floats on a flow root, sizing the element box and wrapping
    it onto a new fragment on a nested cursor, and resetting the pen. */
module Completion {
  import opened Wrappers
  import opened Boxes
  import opened Cursors
  import opened Placement

  // ---------------------------------------------------------------------------
  // Vertical alignment.
  // ---------------------------------------------------------------------------

  /** An on-line box sits on the line's bottom edge less its baseline drop. */
  function OnLinePlaced(b: Box, bottom: real): Box
  {
    b.(parentOffsetTop := bottom - BaselineDrop(b))
  }

  /** An out-of-flow box sits at the line's bottom edge; an outside-block one
      (that is not outside-inline) also returns to the line start. */
  function OutOfFlowPlaced(b: Box, bottom: real, lineStart: real): Box
  {
    if !b.display.outsideInline && b.display.outsideBlock
    then b.(parentOffsetTop := bottom, parentOffsetLeft := lineStart)
    else b.(parentOffsetTop := bottom)
  }

  /** The walk over the on-line list. */
  function AlignOnLine(boxes: seq<Box>, ids: seq<BoxId>, bottom: real): (r: seq<Box>)
    requires AllIn(ids, |boxes|)
    ensures |r| == |boxes|
    ensures forall i :: 0 <= i < |ids| ==> r[ids[i]] == OnLinePlaced(boxes[ids[i]], bottom)
    ensures forall x {:trigger r[x]} :: 0 <= x < |boxes| && x !in ids ==> r[x] == boxes[x]
    decreases |ids|
  {
    if |ids| == 0 then boxes
    else
      var x := ids[0];
      var rest := ids[1..];
      assert forall i :: 0 <= i < |rest| ==> rest[i] == ids[i + 1];
      AlignOnLine(boxes[x := OnLinePlaced(boxes[x], bottom)], rest, bottom)
  }

  /** The walk over the out-of-flow list. */
  function AlignOutOfFlow(boxes: seq<Box>, ids: seq<BoxId>, bottom: real, lineStart: real): (r: seq<Box>)
    requires AllIn(ids, |boxes|)
    ensures |r| == |boxes|
    ensures forall i :: 0 <= i < |ids| ==> r[ids[i]] == OutOfFlowPlaced(boxes[ids[i]], bottom, lineStart)
    ensures forall x {:trigger r[x]} :: 0 <= x < |boxes| && x !in ids ==> r[x] == boxes[x]
    decreases |ids|
  {
    if |ids| == 0 then boxes
    else
      var x := ids[0];
      var rest := ids[1..];
      assert forall i :: 0 <= i < |rest| ==> rest[i] == ids[i + 1];
      AlignOutOfFlow(boxes[x := OutOfFlowPlaced(boxes[x], bottom, lineStart)], rest, bottom, lineStart)
  }

  /** Both alignment passes at a known bottom edge; both lists end empty. */
  function Aligned(st: State, c: CursorId, bottom: real): (st': State)
    requires Valid(st) && c < |st.cursors|
    ensures Valid(st') && SameShape(st, st') && |st'.boxes| == |st.boxes| && st'.renders == st.renders
    ensures st'.cursors == st.cursors[c := st.cursors[c].(onLine := [], outOfFlow := [])]
    ensures var cur := st.cursors[c];
            st'.boxes == AlignOutOfFlow(AlignOnLine(st.boxes, cur.onLine, bottom), cur.outOfFlow, bottom, cur.lineStart)
    ensures OffsetsOnly(st.boxes, st'.boxes)
  {
    var cur := st.cursors[c];
    assert CursorValid(cur, |st.boxes|, |st.cursors|, |st.renders|);
    AlignPassesMoveOnly(st.boxes, cur.onLine, cur.outOfFlow, bottom, cur.lineStart);
    var boxes := AlignOutOfFlow(AlignOnLine(st.boxes, cur.onLine, bottom), cur.outOfFlow, bottom, cur.lineStart);
    var st1 := PutBoxes(st, boxes);
    PutCursor(st1, c, cur.(onLine := [], outOfFlow := []))
  }

  /** Both alignment passes; they read `PenY` once per box, so they fault only
      when a list is non-empty and the owner cannot be resolved. Both lists end
      empty. */
  function AlignLine(st: State, c: CursorId, lineHeight: real): (r: Result<State, Fault>)
    requires Valid(st) && c < |st.cursors|
    ensures r.Failure? <==> (|st.cursors[c].onLine| > 0 || |st.cursors[c].outOfFlow| > 0) && Owner(st, c).Failure?
    ensures r.Success? ==> Valid(r.value) && SameShape(st, r.value) && |r.value.boxes| == |st.boxes|
    ensures r.Success? ==> r.value.renders == st.renders
    ensures r.Success? ==> r.value.cursors == st.cursors[c := st.cursors[c].(onLine := [], outOfFlow := [])]
    ensures r.Success? && (|st.cursors[c].onLine| > 0 || |st.cursors[c].outOfFlow| > 0) ==>
              PenY(st, c).Success? && r.value == Aligned(st, c, PenY(st, c).value + lineHeight)
    ensures r.Success? ==> OffsetsOnly(st.boxes, r.value.boxes)
  {
    var cur := st.cursors[c];
    if |cur.onLine| == 0 && |cur.outOfFlow| == 0 then
      assert cur.(onLine := [], outOfFlow := []) == cur;
      Success(st)
    else
      var penY :- PenY(st, c);
      Success(Aligned(st, c, penY + lineHeight))
  }

  // ---------------------------------------------------------------------------
  // Releasing floats on a flow root.
  // ---------------------------------------------------------------------------

  /** The two float edges of a flow context. */
  datatype Edges = Edges(lineStart: real, maxX: real)

  /** The pen has passed below the float. */
  predicate Passed(f: Box, penY: real)
  {
    penY >= f.parentOffsetTop + f.height
  }

  /** Give back a float's width to the edge it reserved. */
  function Release(e: Edges, f: Box, goingLeftwards: bool): Edges
  {
    if ReservesLineStart(f.floatMode, goingLeftwards) then e.(lineStart := e.lineStart - f.width)
    else e.(maxX := e.maxX + f.width)
  }

  /** The floats the pen has not passed, in their original order. */
  function Kept(boxes: seq<Box>, floats: seq<BoxId>, penY: real): (k: seq<BoxId>)
    requires AllIn(floats, |boxes|)
    ensures forall i :: 0 <= i < |k| ==> k[i] in floats
    ensures |k| <= |floats|
  {
    if |floats| == 0 then []
    else
      var rest := floats[1..];
      assert forall i :: 0 <= i < |rest| ==> rest[i] == floats[i + 1];
      (if Passed(boxes[floats[0]], penY) then [] else [floats[0]]) + Kept(boxes, rest, penY)
  }

  /** The total width of the passed floats that reserved the line start
      (`atLineStart`) or `MaxX` (`!atLineStart`). */
  function ReleasedWidth(boxes: seq<Box>, floats: seq<BoxId>, penY: real, goingLeftwards: bool, atLineStart: bool): real
    requires AllIn(floats, |boxes|)
  {
    if |floats| == 0 then 0.0
    else
      var f := boxes[floats[0]];
      var rest := floats[1..];
      assert forall i :: 0 <= i < |rest| ==> rest[i] == floats[i + 1];
      (if Passed(f, penY) && ReservesLineStart(f.floatMode, goingLeftwards) == atLineStart then f.width else 0.0)
      + ReleasedWidth(boxes, rest, penY, goingLeftwards, atLineStart)
  }

  /** A flow root's break as its float state sees it: the floats the pen has
      passed at the line's bottom leave the active list, and each edge regains
      the widths of the released floats that reserved it. */
  predicate BreakReleased(boxes: seq<Box>, cur: Cursor, cur': Cursor)
  {
    && !cur.kind.Inline? && !cur'.kind.Inline? && AllIn(cur.activeFloats, |boxes|)
    && var fs := cur.kind.own;
       var penY := fs.penY + cur.lineHeight;
       && cur'.activeFloats == Kept(boxes, cur.activeFloats, penY)
       && cur'.lineStart == cur.lineStart - ReleasedWidth(boxes, cur.activeFloats, penY, fs.goingLeftwards, true)
       && cur'.kind.own.maxX == fs.maxX + ReleasedWidth(boxes, cur.activeFloats, penY, fs.goingLeftwards, false)
  }

  lemma {:induction false} KeptSnoc(boxes: seq<Box>, floats: seq<BoxId>, x: BoxId, penY: real)
    requires AllIn(floats, |boxes|) && x < |boxes|
    ensures AllIn(floats + [x], |boxes|)
    ensures Kept(boxes, floats + [x], penY) ==
            Kept(boxes, floats, penY) + (if Passed(boxes[x], penY) then [] else [x])
    decreases |floats|
  {
    AllInSnoc(floats, x, boxes);
    if |floats| > 0 {
      var rest := floats[1..];
      assert (floats + [x])[1..] == rest + [x];
      assert AllIn(rest, |boxes|) by {
        forall i | 0 <= i < |rest| ensures rest[i] < |boxes| { assert rest[i] == floats[i + 1]; }
      }
      KeptSnoc(boxes, rest, x, penY);
      var head := if Passed(boxes[floats[0]], penY) then [] else [floats[0]];
      var tail := if Passed(boxes[x], penY) then [] else [x];
      assert Kept(boxes, floats + [x], penY) == head + Kept(boxes, rest + [x], penY);
      assert Kept(boxes, floats, penY) == head + Kept(boxes, rest, penY);
      assert head + (Kept(boxes, rest, penY) + tail) == (head + Kept(boxes, rest, penY)) + tail;
    }
  }

  lemma {:induction false} ReleasedSnoc(boxes: seq<Box>, floats: seq<BoxId>, x: BoxId, penY: real,
                                        goingLeftwards: bool, atLineStart: bool)
    requires AllIn(floats, |boxes|) && x < |boxes|
    ensures AllIn(floats + [x], |boxes|)
    ensures ReleasedWidth(boxes, floats + [x], penY, goingLeftwards, atLineStart) ==
            ReleasedWidth(boxes, floats, penY, goingLeftwards, atLineStart)
            + (if Passed(boxes[x], penY) && ReservesLineStart(boxes[x].floatMode, goingLeftwards) == atLineStart
               then boxes[x].width else 0.0)
    decreases |floats|
  {
    AllInSnoc(floats, x, boxes);
    if |floats| > 0 {
      var rest := floats[1..];
      assert (floats + [x])[1..] == rest + [x];
      assert AllIn(rest, |boxes|) by {
        forall i | 0 <= i < |rest| ensures rest[i] < |boxes| { assert rest[i] == floats[i + 1]; }
      }
      ReleasedSnoc(boxes, rest, x, penY, goingLeftwards, atLineStart);
    }
  }

  /** The clearing loop, from the last active float to the first: a passed float
      gives its width back to the edge it reserved and leaves the list. The
      result: exactly the floats not passed remain, in order, and each edge
      regains the total width of the passed floats that reserved it. */
  function ClearFloats(boxes: seq<Box>, floats: seq<BoxId>, penY: real, goingLeftwards: bool, e: Edges)
    : (r: (Edges, seq<BoxId>))
    requires AllIn(floats, |boxes|)
    ensures r.1 == Kept(boxes, floats, penY)
    ensures r.0.lineStart == e.lineStart - ReleasedWidth(boxes, floats, penY, goingLeftwards, true)
    ensures r.0.maxX == e.maxX + ReleasedWidth(boxes, floats, penY, goingLeftwards, false)
    decreases |floats|
  {
    if |floats| == 0 then (e, [])
    else
      var i := |floats| - 1;
      var front := floats[..i];
      var x := floats[i];
      assert floats == front + [x];
      assert AllIn(front, |boxes|) by {
        forall j | 0 <= j < |front| ensures front[j] < |boxes| { assert front[j] == floats[j]; }
      }
      KeptSnoc(boxes, front, x, penY);
      ReleasedSnoc(boxes, front, x, penY, goingLeftwards, true);
      ReleasedSnoc(boxes, front, x, penY, goingLeftwards, false);
      var f := boxes[x];
      var e' := if Passed(f, penY) then Release(e, f, goingLeftwards) else e;
      var inner := ClearFloats(boxes, front, penY, goingLeftwards, e');
      (inner.0, inner.1 + (if Passed(f, penY) then [] else [x]))
  }

  /** A flow root finishing a line: the pen moves down by the line's height and
      every float the pen has now passed is released. The flow root owns its
      storage, so this cannot fault. */
  function AdvanceFlowRoot(st: State, c: CursorId, lineHeight: real): (st': State)
    requires Valid(st) && c < |st.cursors| && IsFlowRoot(st.cursors[c].kind)
    ensures Valid(st') && SameShape(st, st')
    ensures st'.boxes == st.boxes && st'.renders == st.renders
    ensures forall x :: 0 <= x < |st.cursors| && x != c ==> st'.cursors[x] == st.cursors[x]
    ensures var cur := st.cursors[c];
            var fs := cur.kind.own;
            var penY := fs.penY + lineHeight;
            var cleared := ClearFloats(st.boxes, cur.activeFloats, penY, fs.goingLeftwards, Edges(cur.lineStart, fs.maxX));
            st'.cursors[c] == cur.(kind := cur.kind.(own := fs.(penY := penY, maxX := cleared.0.maxX)),
                                   lineStart := cleared.0.lineStart, activeFloats := cleared.1)
  {
    var cur := st.cursors[c];
    var fs := cur.kind.own;
    var penY := fs.penY + lineHeight;
    var cleared := ClearFloats(st.boxes, cur.activeFloats, penY, fs.goingLeftwards, Edges(cur.lineStart, fs.maxX));
    assert AllIn(cleared.1, |st.boxes|) by {
      forall i | 0 <= i < |cleared.1| ensures cleared.1[i] < |st.boxes| {
        var j :| 0 <= j < |cur.activeFloats| && cur.activeFloats[j] == cleared.1[i];
      }
    }
    PutCursor(st, c, cur.(kind := cur.kind.(own := fs.(penY := penY, maxX := cleared.0.maxX)),
                          lineStart := cleared.0.lineStart, activeFloats := cleared.1))
  }

  // ---------------------------------------------------------------------------
  // A nested cursor: size the element box, advance the parent, and wrap.
  // ---------------------------------------------------------------------------

  /** The element box takes the line's height and the pen's run as its inner
      (and content) size. `SetDimensions` is not modelled. */
  function SizeBox(st: State, b: BoxId, lineHeight: real, run: real): (st': State)
    requires Valid(st) && b < |st.boxes|
    ensures Valid(st') && SameShape(st, st')
    ensures st'.boxes == st.boxes[b := st.boxes[b].(innerHeight := lineHeight, innerWidth := run,
                                                     contentHeight := lineHeight, contentWidth := run)]
    ensures st'.cursors == st.cursors && st'.renders == st.renders
  {
    PutBox(st, b, st.boxes[b].(innerHeight := lineHeight, innerWidth := run,
                               contentHeight := lineHeight, contentWidth := run))
  }

  /** The parent's line height rises to the child line's height. */
  function RaiseLineHeight(st: State, p: CursorId, lineHeight: real): (st': State)
    requires Valid(st) && p < |st.cursors|
    ensures Valid(st') && SameShape(st, st')
    ensures st'.cursors == st.cursors[p := st.cursors[p].(lineHeight := Max(st.cursors[p].lineHeight, lineHeight))]
    ensures st'.boxes == st.boxes && st'.renders == st.renders
  {
    var cur := st.cursors[p];
    if lineHeight > cur.lineHeight then PutCursor(st, p, cur.(lineHeight := lineHeight))
    else
      assert cur.(lineHeight := Max(cur.lineHeight, lineHeight)) == cur;
      st
  }

  /** The wrap, first step: a new fragment box styled after `box` is allocated
      and becomes the cursor's current box. */
  function StartFragment(st: State, c: CursorId, box: Box): (st': State)
    requires Valid(st) && c < |st.cursors|
    ensures Valid(st') && SameShape(st, st')
    ensures st'.boxes == st.boxes + [NewFragment(box)] && st'.renders == st.renders
    ensures st'.cursors == st.cursors[c := st.cursors[c].(currentBox := Some(|st.boxes|))]
  {
    var st1 := NewBox(st, NewFragment(box));
    PutCursor(st1, c, st1.cursors[c].(currentBox := Some(|st.boxes|)))
  }

  /** The wrap, second step: box `f` joins the tail of the element's fragment
      chain (`RenderData.LastBox`), which faults when the cursor has no render
      data or the chain is empty. */
  function ChainFragment(st: State, c: CursorId, f: BoxId): (r: Result<State, Fault>)
    requires Valid(st) && c < |st.cursors| && f < |st.boxes|
    ensures r.Failure? <==> st.cursors[c].renderData.None? || st.renders[st.cursors[c].renderData.value].lastBox.None?
    ensures r.Success? ==> Valid(r.value) && SameShape(st, r.value) && |r.value.boxes| == |st.boxes|
    ensures r.Success? ==> r.value.cursors == st.cursors
    ensures r.Success? ==>
              var rd := st.cursors[c].renderData.value;
              var last := st.renders[rd].lastBox.value;
              && r.value.renders == st.renders[rd := RenderData(Some(f))]
              && r.value.boxes == st.boxes[last := st.boxes[last].(nextInElement := Some(f))]
  {
    var cur := st.cursors[c];
    if cur.renderData.None? then Failure(NullRenderData)
    else
      var rd := cur.renderData.value;
      assert CursorValid(cur, |st.boxes|, |st.cursors|, |st.renders|);
      if st.renders[rd].lastBox.None? then Failure(NullLastBox)
      else
        var last := st.renders[rd].lastBox.value;
        var st1 := PutBox(st, last, st.boxes[last].(nextInElement := Some(f)));
        Success(PutRender(st1, rd, RenderData(Some(f))))
  }

  /** The wrap: a new fragment box styled after the in-flow element box `box`
      becomes the cursor's current box, joins the tail of the element's fragment
      chain and is queued on the parent's line. */
  function Wrap(st: State, c: CursorId, p: CursorId, box: Box): (r: Result<State, Fault>)
    requires Valid(st) && c < |st.cursors| && p < |st.cursors| && box.InFlow()
    ensures r.Failure? <==> st.cursors[c].renderData.None? || st.renders[st.cursors[c].renderData.value].lastBox.None?
    ensures r.Success? ==> Valid(r.value) && SameShape(st, r.value) && |r.value.boxes| == |st.boxes| + 1
  {
    var st1 := StartFragment(st, c, box);
    var st2 :- ChainFragment(st1, c, |st.boxes|);
    var st3 := AddToLine(st2, p, |st.boxes|).value;
    SameShapeTransitive(st, st1, st2);
    Success(st3)
  }

  /** The pen reset after a break: an inline cursor first re-reads its host's
      line start; then the pen returns to the line start and the line height and
      baseline become zero. */
  function ResetPen(st: State, c: CursorId): (r: Result<State, Fault>)
    requires Valid(st) && c < |st.cursors|
    ensures r.Failure? <==> st.cursors[c].kind.Inline? && st.cursors[c].hostBlock.None?
    ensures r.Success? ==> Valid(r.value) && SameShape(st, r.value)
    ensures r.Success? ==> r.value.boxes == st.boxes && r.value.renders == st.renders
    ensures r.Success? ==> forall x :: 0 <= x < |st.cursors| && x != c ==> r.value.cursors[x] == st.cursors[x]
    ensures r.Success? ==>
              var cur := st.cursors[c];
              var lineStart := if cur.kind.Inline? then st.cursors[cur.hostBlock.value].lineStart else cur.lineStart;
              r.value.cursors[c] == cur.(lineStart := lineStart, penX := lineStart, lineHeight := 0.0, baseline := 0.0)
    ensures r.Success? ==>
              var cur' := r.value.cursors[c];
              cur'.penX == cur'.lineStart && cur'.lineHeight == 0.0 && cur'.baseline == 0.0
  {
    var cur := st.cursors[c];
    if cur.kind.Inline? && cur.hostBlock.None? then Failure(NullHostBlock)
    else
      var lineStart := if cur.kind.Inline? then st.cursors[cur.hostBlock.value].lineStart else cur.lineStart;
      Success(PutCursor(st, c, cur.(lineStart := lineStart, penX := lineStart, lineHeight := 0.0, baseline := 0.0)))
  }

  /** Cursor `c`'s in-flow element box `b`: the parent's line height rises to
      this line's, the box is sized by the line height and the pen's run from
      the line start, and the parent's pen advances past it. */
  function PlaceOnParent(st: State, c: CursorId, p: CursorId, b: BoxId, lineHeight: real): (r: Result<State, Fault>)
    requires Valid(st) && c < |st.cursors| && p < |st.cursors| && b < |st.boxes|
    ensures r.Failure? <==> Owner(st, p).Failure?
    ensures r.Success? ==> Valid(r.value) && SameShape(st, r.value) && |r.value.boxes| == |st.boxes|
  {
    var run := st.cursors[c].penX - st.cursors[c].lineStart;
    var st1 := RaiseLineHeight(st, p, lineHeight);
    var st2 := SizeBox(st1, b, lineHeight, run);
    SameShapeTransitive(st, st1, st2);
    OwnerSameShape(st, st2, p, |st.cursors|);
    AdvancePen(st2, p, b)
  }

  /** The element box of a nested cursor once its line is done: sized in place
      when it is out of flow, otherwise placed on the parent's line. */
  function PlaceNested(st: State, c: CursorId, lineHeight: real): (r: Result<State, Fault>)
    requires Valid(st) && c < |st.cursors|
    ensures r.Success? ==> Valid(r.value) && SameShape(st, r.value) && |r.value.boxes| == |st.boxes|
  {
    var cur := st.cursors[c];
    if cur.currentBox.None? then Failure(NullCurrentBox)
    else
      var cb := cur.currentBox.value;
      if !st.boxes[cb].InFlow() then Success(SizeBox(st, cb, lineHeight, cur.penX - cur.lineStart))
      else if cur.parent.None? then Failure(NullParent)
      else PlaceOnParent(st, c, cur.parent.value, cb, lineHeight)
  }

  /** The step after alignment: a flow root moves down past the line (when it
      was aligned), a nested cursor places its element box. */
  function SettleLine(st: State, c: CursorId, aligned: bool, lineHeight: real): (r: Result<State, Fault>)
    requires Valid(st) && c < |st.cursors|
    ensures r.Success? ==> Valid(r.value) && SameShape(st, r.value)
  {
    if IsFlowRoot(st.cursors[c].kind) then Success(if aligned then AdvanceFlowRoot(st, c, lineHeight) else st)
    else PlaceNested(st, c, lineHeight)
  }

  /** What a break leaves to the parent: the parent cursor whose line breaks
      in turn and the element box that continues in a new fragment. */
  datatype Pending = Pending(parent: CursorId, element: Box)

  /** A break propagates to the parent exactly when the cursor is nested, has an
      element box and a parent, and the element box is in flow and no flow root;
      the box record is the one read before the element was placed. */
  function PendingBreak(st: State, c: CursorId): (r: Option<Pending>)
    requires Valid(st) && c < |st.cursors|
    ensures r.Some? ==> r.value.parent < |st.cursors| && r.value.element.InFlow()
  {
    var cur := st.cursors[c];
    assert CursorValid(cur, |st.boxes|, |st.cursors|, |st.renders|);
    if IsFlowRoot(cur.kind) || cur.currentBox.None? || cur.parent.None? then None
    else
      var box := st.boxes[cur.currentBox.value];
      if !box.InFlow() || box.display.flowRoot then None
      else Some(Pending(cur.parent.value, box))
  }

  /** The rest of a break that propagated to the parent: once the parent's line
      is complete (`parentDone`), the element continues in a new fragment. */
  function ContinueInFragment(st: State, c: CursorId, pending: Pending, parentDone: Result<State, Fault>): (r: Result<State, Fault>)
    requires Valid(st) && c < |st.cursors| && pending.parent < |st.cursors| && pending.element.InFlow()
    requires parentDone.Success? ==> Valid(parentDone.value) && SameShape(st, parentDone.value)
    ensures r.Success? ==> Valid(r.value) && SameShape(st, r.value)
  {
    var st4 :- parentDone;
    var st5 :- Wrap(st4, c, pending.parent, pending.element);
    SameShapeTransitive(st, st4, st5);
    Success(st5)
  }

  /** `CompleteLine(breakLine, topOfStack)`. `fuel` bounds the recursion into the
      parent cursor; running out of it is the C# stack overflow on a cycle of
      parent references. */
  function CompleteLineN(st: State, c: CursorId, breakLine: bool, topOfStack: bool, fuel: nat): (r: Result<State, Fault>)
    requires Valid(st) && c < |st.cursors|
    ensures r.Success? ==> Valid(r.value) && SameShape(st, r.value)
    decreases fuel
  {
    var lineHeight := st.cursors[c].lineHeight;
    var st1 :- if breakLine || topOfStack then AlignLine(st, c, lineHeight) else Success(st);
    var st2 :- SettleLine(st1, c, breakLine || topOfStack, lineHeight);
    var pending := if breakLine then PendingBreak(st1, c) else None;
    var st3 :-
      if pending.None? then Success(st2)
      else if fuel == 0 then Failure(EndlessRecursion)
      else ContinueInFragment(st2, c, pending.value, CompleteLineN(st2, pending.value.parent, true, false, fuel - 1));
    SameShapeTransitive(st1, st2, st3);
    if breakLine then ResetPen(st3, c) else Success(st3)
  }

  function CompleteLine(st: State, c: CursorId, breakLine: bool, topOfStack: bool): (r: Result<State, Fault>)
    requires Valid(st) && c < |st.cursors|
    ensures r.Success? ==> Valid(r.value) && SameShape(st, r.value)
  {
    CompleteLineN(st, c, breakLine, topOfStack, |st.cursors|)
  }

  // ---------------------------------------------------------------------------
  // Properties.
  // ---------------------------------------------------------------------------

  /** Vertical placement of a completed line, from the boxes before to the
      boxes after: every on-line box sits on the bottom edge less its baseline
      drop, every out-of-flow box sits at that edge (an outside-block one also
      back at the line start), and every other box keeps its record. */
  predicate LinePlaced(boxes: seq<Box>, boxes': seq<Box>, onLine: seq<BoxId>, outOfFlow: seq<BoxId>,
                       bottom: real, lineStart: real)
    requires |boxes'| == |boxes|
  {
    && (forall x :: x in onLine && x !in outOfFlow && 0 <= x < |boxes| ==> boxes'[x] == OnLinePlaced(boxes[x], bottom))
    && (forall x :: x in outOfFlow && x !in onLine && 0 <= x < |boxes| ==>
          boxes'[x] == OutOfFlowPlaced(boxes[x], bottom, lineStart))
    && (forall x :: 0 <= x < |boxes| && x !in onLine && x !in outOfFlow ==> boxes'[x] == boxes[x])
  }

  /** The two passes together, on the box arena alone. */
  lemma AlignPassesEffect(boxes: seq<Box>, onLine: seq<BoxId>, outOfFlow: seq<BoxId>, bottom: real, lineStart: real)
    requires AllIn(onLine, |boxes|) && AllIn(outOfFlow, |boxes|)
    ensures LinePlaced(boxes, AlignOutOfFlow(AlignOnLine(boxes, onLine, bottom), outOfFlow, bottom, lineStart),
                       onLine, outOfFlow, bottom, lineStart)
  {
    var mid := AlignOnLine(boxes, onLine, bottom);
    var r := AlignOutOfFlow(mid, outOfFlow, bottom, lineStart);
    forall x | x in onLine && x !in outOfFlow
      ensures r[x] == OnLinePlaced(boxes[x], bottom)
    {
      var i :| 0 <= i < |onLine| && onLine[i] == x;
    }
    forall x | x in outOfFlow && x !in onLine
      ensures r[x] == OutOfFlowPlaced(boxes[x], bottom, lineStart)
    {
      var i :| 0 <= i < |outOfFlow| && outOfFlow[i] == x;
    }
  }

  /** Aligning a line with queued boxes places them on the line's bottom edge,
      `PenY + LineHeight`, and leaves every other box as it was. */
  lemma AlignLinePlacesBoxes(st: State, c: CursorId, lineHeight: real, st': State)
    requires Valid(st) && c < |st.cursors|
    requires AlignLine(st, c, lineHeight) == Success(st')
    requires var cur := st.cursors[c]; |cur.onLine| > 0 || |cur.outOfFlow| > 0
    ensures |st'.boxes| == |st.boxes|
    ensures var cur := st.cursors[c];
            LinePlaced(st.boxes, st'.boxes, cur.onLine, cur.outOfFlow, PenY(st, c).value + lineHeight, cur.lineStart)
  {
    var cur := st.cursors[c];
    assert CursorValid(cur, |st.boxes|, |st.cursors|, |st.renders|);
    AlignPassesEffect(st.boxes, cur.onLine, cur.outOfFlow, PenY(st, c).value + lineHeight, cur.lineStart);
  }

  /** Without a break or the top of the stack, a flow root's `CompleteLine`
      changes nothing. */
  lemma FlowRootIdleLine(st: State, c: CursorId)
    requires Valid(st) && c < |st.cursors| && IsFlowRoot(st.cursors[c].kind)
    ensures CompleteLine(st, c, false, false) == Success(st)
  {
  }

  /** A flow root finishing a line (on a break or at the top of the stack)
      never faults; it empties both line lists, moves its own `PenY` down by the
      line's height, keeps exactly the floats not yet passed and gives back their
      widths to the edges they reserved; on a break the pen also returns to the
      (new) line start with zero line height and baseline, otherwise the pen and
      line height stay; every other field of the cursor is left as it was. */
  lemma FlowRootCompletesLine(st: State, c: CursorId, breakLine: bool, topOfStack: bool)
    requires Valid(st) && c < |st.cursors| && IsFlowRoot(st.cursors[c].kind)
    requires breakLine || topOfStack
    ensures CompleteLine(st, c, breakLine, topOfStack).Success?
    ensures var st' := CompleteLine(st, c, breakLine, topOfStack).value;
            var cur := st.cursors[c];
            var cur' := st'.cursors[c];
            var fs := cur.kind.own;
            var penY := fs.penY + cur.lineHeight;
            && cur'.onLine == [] && cur'.outOfFlow == []
            && FlowOf(st', c) == Success(cur'.kind.own)
            && cur'.kind.own.penY == penY
            && cur'.kind.own.goingLeftwards == fs.goingLeftwards
            && cur'.activeFloats == Kept(st'.boxes, cur.activeFloats, penY)
            && cur'.lineStart == cur.lineStart - ReleasedWidth(st'.boxes, cur.activeFloats, penY, fs.goingLeftwards, true)
            && cur'.kind.own.maxX == fs.maxX + ReleasedWidth(st'.boxes, cur.activeFloats, penY, fs.goingLeftwards, false)
            && (breakLine ==> cur'.penX == cur'.lineStart && cur'.lineHeight == 0.0 && cur'.baseline == 0.0)
            && (!breakLine ==> cur'.penX == cur.penX && cur'.lineHeight == cur.lineHeight && cur'.baseline == cur.baseline)
            && cur' == cur.(kind := cur.kind.(own := fs.(penY := penY, maxX := cur'.kind.own.maxX)),
                            penX := cur'.penX, lineHeight := cur'.lineHeight, baseline := cur'.baseline,
                            lineStart := cur'.lineStart, onLine := [], outOfFlow := [],
                            activeFloats := cur'.activeFloats)
            && (forall x :: 0 <= x < |st.cursors| && x != c ==> st'.cursors[x] == st.cursors[x])
            && (cur.onLine == [] && cur.outOfFlow == [] ==> st'.boxes == st.boxes)
  {
    var cur := st.cursors[c];
    OwnsIffFlowRoot(st, c);
    var st1 := AlignLine(st, c, cur.lineHeight).value;
    var st2 := AdvanceFlowRoot(st1, c, cur.lineHeight);
    assert st1.cursors[c] == cur.(onLine := [], outOfFlow := []);
    OwnsIffFlowRoot(CompleteLine(st, c, breakLine, topOfStack).value, c);
  }

  /** Where a flow root's completed line puts its boxes: on a break or at the
      top of the stack every on-line box sits on the line's bottom edge (the old
      pen Y plus the line height) less its baseline drop, every out-of-flow box
      at that edge, an outside-block one back at the line start, and every other
      box keeps its record. */
  lemma FlowRootPlacesLine(st: State, c: CursorId, breakLine: bool, topOfStack: bool, st': State)
    requires Valid(st) && c < |st.cursors| && IsFlowRoot(st.cursors[c].kind)
    requires breakLine || topOfStack
    ensures CompleteLine(st, c, breakLine, topOfStack).Success?
    ensures CompleteLine(st, c, breakLine, topOfStack) == Success(st') ==>
              var cur := st.cursors[c];
              && |st'.boxes| == |st.boxes|
              && LinePlaced(st.boxes, st'.boxes, cur.onLine, cur.outOfFlow, cur.kind.own.penY + cur.lineHeight, cur.lineStart)
  {
    var cur := st.cursors[c];
    var bottom := cur.kind.own.penY + cur.lineHeight;
    FlowRootKeepsAlignedBoxes(st, c, breakLine, topOfStack);
    assert CursorValid(cur, |st.boxes|, |st.cursors|, |st.renders|);
    AlignPassesEffect(st.boxes, cur.onLine, cur.outOfFlow, bottom, cur.lineStart);
  }

  /** A flow root's completed line holds the boxes exactly as the two alignment
      passes leave them at its own pen Y plus the line height. */
  lemma FlowRootKeepsAlignedBoxes(st: State, c: CursorId, breakLine: bool, topOfStack: bool)
    requires Valid(st) && c < |st.cursors| && IsFlowRoot(st.cursors[c].kind)
    requires breakLine || topOfStack
    ensures CompleteLine(st, c, breakLine, topOfStack).Success?
    ensures var cur := st.cursors[c];
            var bottom := cur.kind.own.penY + cur.lineHeight;
            assert CursorValid(cur, |st.boxes|, |st.cursors|, |st.renders|);
            CompleteLine(st, c, breakLine, topOfStack).value.boxes
              == AlignOutOfFlow(AlignOnLine(st.boxes, cur.onLine, bottom), cur.outOfFlow, bottom, cur.lineStart)
  {
    FlowRootLineKeepsAlignLine(st, c, breakLine, topOfStack);
    FlowRootAligns(st, c);
  }

  /** On a flow root the steps after the alignment passes leave the boxes alone. */
  lemma FlowRootLineKeepsAlignLine(st: State, c: CursorId, breakLine: bool, topOfStack: bool)
    requires Valid(st) && c < |st.cursors| && IsFlowRoot(st.cursors[c].kind)
    requires breakLine || topOfStack
    ensures AlignLine(st, c, st.cursors[c].lineHeight).Success?
    ensures CompleteLine(st, c, breakLine, topOfStack).Success?
    ensures CompleteLine(st, c, breakLine, topOfStack).value.boxes == AlignLine(st, c, st.cursors[c].lineHeight).value.boxes
  {
    var cur := st.cursors[c];
    OwnsIffFlowRoot(st, c);
    var st1 := AlignLine(st, c, cur.lineHeight).value;
    var st2 := AdvanceFlowRoot(st1, c, cur.lineHeight);
    assert st1.cursors[c] == cur.(onLine := [], outOfFlow := []);
  }

  /** A flow root's alignment passes run at its own pen Y plus the line height. */
  lemma FlowRootAligns(st: State, c: CursorId)
    requires Valid(st) && c < |st.cursors| && IsFlowRoot(st.cursors[c].kind)
    ensures var cur := st.cursors[c];
            AlignLine(st, c, cur.lineHeight) == Success(Aligned(st, c, cur.kind.own.penY + cur.lineHeight))
  {
    var cur := st.cursors[c];
    var bottom := cur.kind.own.penY + cur.lineHeight;
    FlowRootPenY(st, c);
    if |cur.onLine| == 0 && |cur.outOfFlow| == 0 {
      assert CursorValid(cur, |st.boxes|, |st.cursors|, |st.renders|);
      assert AlignOnLine(st.boxes, cur.onLine, bottom) == st.boxes;
      assert cur.(onLine := [], outOfFlow := []) == cur;
      assert Aligned(st, c, bottom) == st;
    }
  }

  /** A flow root reads its pen Y from its own flow state. */
  lemma FlowRootPenY(st: State, c: CursorId)
    requires Valid(st) && c < |st.cursors| && IsFlowRoot(st.cursors[c].kind)
    ensures PenY(st, c) == Success(st.cursors[c].kind.own.penY)
  {
    OwnsIffFlowRoot(st, c);
  }

  /** The pen reset on a break: whatever the cursor, a successful break leaves
      the pen at the line start with zero line height and baseline, and an inline
      cursor's line start is its host block's. */
  lemma BreakResetsPen(st: State, c: CursorId, topOfStack: bool)
    requires Valid(st) && c < |st.cursors|
    requires CompleteLine(st, c, true, topOfStack).Success?
    ensures var st' := CompleteLine(st, c, true, topOfStack).value;
            var cur' := st'.cursors[c];
            && cur'.penX == cur'.lineStart && cur'.lineHeight == 0.0 && cur'.baseline == 0.0
            && (cur'.kind.Inline? ==> cur'.hostBlock.Some? && cur'.lineStart == st'.cursors[cur'.hostBlock.value].lineStart)
  {
    var st' := CompleteLine(st, c, true, topOfStack).value;
    var cur' := st'.cursors[c];
    if cur'.kind.Inline? {
      assert CursorValid(cur', |st'.boxes|, |st'.cursors|, |st'.renders|);
    }
  }

  /** Float round trip on a flow root with an empty line: queueing a float,
      advancing the pen past it and breaking the line reserves the float's width
      at one edge and gives it back at the same edge once the pen has passed the
      float, leaving `LineStart`, `MaxX` and the active floats as they were; until
      then the float stays active and its width stays reserved. */
  lemma FloatRoundTrip(st: State, c: CursorId, b: BoxId)
    requires Valid(st) && c < |st.cursors| && b < |st.boxes| && IsFlowRoot(st.cursors[c].kind)
    requires st.boxes[b].InFlow() && st.boxes[b].floatMode != NoFloat
    requires var cur := st.cursors[c]; cur.onLine == [] && cur.outOfFlow == [] && cur.activeFloats == []
    ensures AddToLine(st, c, b).Success?
    ensures var st1 := AddToLine(st, c, b).value;
            AdvancePen(st1, c, b).Success? && CompleteLine(AdvancePen(st1, c, b).value, c, true, false).Success?
    ensures var st3 := CompleteLine(AdvancePen(AddToLine(st, c, b).value, c, b).value, c, true, false).value;
            var cur := st.cursors[c];
            var cur3 := st3.cursors[c];
            var box := st.boxes[b];
            var fs := cur.kind.own;
            var atLineStart := ReservesLineStart(box.floatMode, fs.goingLeftwards);
            && (fs.penY + cur.lineHeight >= box.parentOffsetTop + box.height ==>
                  && cur3.lineStart == cur.lineStart && cur3.kind.own.maxX == fs.maxX && cur3.activeFloats == [])
            && (fs.penY + cur.lineHeight < box.parentOffsetTop + box.height ==>
                  && cur3.activeFloats == [b]
                  && cur3.lineStart == (if atLineStart then cur.lineStart + box.width else cur.lineStart)
                  && cur3.kind.own.maxX == (if atLineStart then fs.maxX else fs.maxX - box.width))
  {
    var cur := st.cursors[c];
    AddToLineDestination(st, c, b);
    var st1 := AddToLine(st, c, b).value;
    assert st1.boxes[b] == st.boxes[b].(nextLineStart := None, nextOnLine := None);
    var cur1 := st1.cursors[c];
    assert cur1 == cur.(activeFloats := [b]);
    OwnsIffFlowRoot(st, c);
    OwnsIffFlowRoot(st1, c);
    AdvancePenFloatReserves(st1, c, b, AdvancePen(st1, c, b).value);
    var st2 := AdvancePen(st1, c, b).value;
    var cur2 := st2.cursors[c];
    assert cur2.onLine == [] && cur2.outOfFlow == [] && cur2.activeFloats == [b];
    OwnsIffFlowRoot(st2, c);
    FlowRootCompletesLine(st2, c, true, false);
    var st3 := CompleteLine(st2, c, true, false).value;
    assert st3.boxes[b].parentOffsetTop == st.boxes[b].parentOffsetTop && st3.boxes[b].height == st.boxes[b].height;
    assert [b][1..] == [];
  }

  /** Splitting off the last active float `b`: it stays on the kept list
      exactly when it was not passed, and edges that `b` had narrowed and a
      release over all the floats then widened differ from the edges before `b`
      (less the other floats' releases) by its width exactly when it was not
      passed. */
  lemma ReleaseLastFloat(boxes: seq<Box>, others: seq<BoxId>, b: BoxId, penY: real, goingLeftwards: bool,
                         lineStart: real, maxX: real)
    requires AllIn(others, |boxes|) && b < |boxes|
    ensures AllIn(others + [b], |boxes|)
    ensures var floats := others + [b];
            var box := boxes[b];
            var atLineStart := ReservesLineStart(box.floatMode, goingLeftwards);
            var passed := Passed(box, penY);
            && Kept(boxes, floats, penY) == Kept(boxes, others, penY) + (if passed then [] else [b])
            && (lineStart + (if atLineStart then box.width else 0.0)) - ReleasedWidth(boxes, floats, penY, goingLeftwards, true)
               == lineStart + (if atLineStart && !passed then box.width else 0.0) - ReleasedWidth(boxes, others, penY, goingLeftwards, true)
            && (maxX - (if atLineStart then 0.0 else box.width)) + ReleasedWidth(boxes, floats, penY, goingLeftwards, false)
               == maxX - (if !atLineStart && !passed then box.width else 0.0) + ReleasedWidth(boxes, others, penY, goingLeftwards, false)
  {
    KeptSnoc(boxes, others, b, penY);
    ReleasedSnoc(boxes, others, b, penY, goingLeftwards, true);
    ReleasedSnoc(boxes, others, b, penY, goingLeftwards, false);
  }

  /** The first half of a float's round trip on a flow root with an empty
      line: the float joins the end of the active list and reserves its width at
      the edge `ReservesLineStart` picks; the pen's line and its own pen Y stay. */
  lemma FloatReservesOnFlowRoot(st: State, c: CursorId, b: BoxId, st2: State)
    requires Valid(st) && c < |st.cursors| && b < |st.boxes| && IsFlowRoot(st.cursors[c].kind)
    requires st.boxes[b].InFlow() && st.boxes[b].floatMode != NoFloat
    requires var cur := st.cursors[c]; cur.onLine == [] && cur.outOfFlow == []
    ensures AddToLine(st, c, b).Success? && AdvancePen(AddToLine(st, c, b).value, c, b).Success?
    ensures AdvancePen(AddToLine(st, c, b).value, c, b) == Success(st2) ==>
              var cur := st.cursors[c];
              var cur2 := st2.cursors[c];
              var box := st.boxes[b];
              var fs := cur.kind.own;
              var atLineStart := ReservesLineStart(box.floatMode, fs.goingLeftwards);
              && Valid(st2) && |st2.cursors| == |st.cursors| && |st2.boxes| == |st.boxes|
              && IsFlowRoot(cur2.kind)
              && cur2.onLine == [] && cur2.outOfFlow == []
              && cur2.activeFloats == cur.activeFloats + [b]
              && cur2.lineHeight == cur.lineHeight
              && cur2.kind.own.penY == fs.penY && cur2.kind.own.goingLeftwards == fs.goingLeftwards
              && cur2.lineStart == cur.lineStart + (if atLineStart then box.width else 0.0)
              && cur2.kind.own.maxX == fs.maxX - (if atLineStart then 0.0 else box.width)
              && st2.boxes[b] == box.(nextLineStart := None, nextOnLine := None, parentOffsetLeft := st2.boxes[b].parentOffsetLeft)
  {
    var cur := st.cursors[c];
    AddToLineDestination(st, c, b);
    var st1 := AddToLine(st, c, b).value;
    assert st1.boxes[b] == st.boxes[b].(nextLineStart := None, nextOnLine := None);
    assert st1.cursors[c] == cur.(activeFloats := cur.activeFloats + [b]);
    OwnsIffFlowRoot(st, c);
    OwnsIffFlowRoot(st1, c);
    AdvancePenFloatReserves(st1, c, b, AdvancePen(st1, c, b).value);
    if AdvancePen(st1, c, b) == Success(st2) {
      OwnsIffFlowRoot(st2, c);
    }
  }

  /** The second half of a float's round trip among other active floats, from
      the state `FloatReservesOnFlowRoot` describes: float `b` sits at the end of
      the active list after `others` and has narrowed the edges `lineStart` and
      `maxX` by its width. The break releases every float the pen has passed,
      `b` included, keeps the others in order, and each edge regains the widths
      of the released floats that reserved it; so `b` ends up holding its width
      exactly when the pen has not passed it. */
  lemma BreakReleasesReservedFloat(st: State, c: CursorId, b: BoxId, st': State,
                                   others: seq<BoxId>, lineStart: real, maxX: real)
    requires Valid(st) && c < |st.cursors| && b < |st.boxes| && IsFlowRoot(st.cursors[c].kind)
    requires AllIn(others, |st.boxes|)
    requires var cur := st.cursors[c];
             var atLineStart := ReservesLineStart(st.boxes[b].floatMode, cur.kind.own.goingLeftwards);
             && cur.onLine == [] && cur.outOfFlow == []
             && cur.activeFloats == others + [b]
             && cur.lineStart == lineStart + (if atLineStart then st.boxes[b].width else 0.0)
             && cur.kind.own.maxX == maxX - (if atLineStart then 0.0 else st.boxes[b].width)
    ensures CompleteLine(st, c, true, false).Success?
    ensures CompleteLine(st, c, true, false) == Success(st') ==>
              var cur := st.cursors[c];
              var cur' := st'.cursors[c];
              var box := st.boxes[b];
              var fs := cur.kind.own;
              var penY := fs.penY + cur.lineHeight;
              var atLineStart := ReservesLineStart(box.floatMode, fs.goingLeftwards);
              var passed := Passed(box, penY);
              && st'.boxes == st.boxes
              && cur'.activeFloats == Kept(st.boxes, others, penY) + (if passed then [] else [b])
              && cur'.lineStart == lineStart + (if atLineStart && !passed then box.width else 0.0)
                                   - ReleasedWidth(st.boxes, others, penY, fs.goingLeftwards, true)
              && cur'.kind.own.maxX == maxX - (if !atLineStart && !passed then box.width else 0.0)
                                       + ReleasedWidth(st.boxes, others, penY, fs.goingLeftwards, false)
  {
    var r := CompleteLine(st, c, true, false);
    FlowRootBreakReleases(st, c, r.value);
    ReleasedAfterReserve(st.boxes, others, b, st.cursors[c], r.value.cursors[c], lineStart, maxX);
  }

  /** The cursor-level step of `BreakReleasesReservedFloat`: `cur` holds float
      `b` last, after `others`, with the edges `lineStart` and `maxX` narrowed
      by its width, and `cur'` is what the break leaves. */
  lemma ReleasedAfterReserve(boxes: seq<Box>, others: seq<BoxId>, b: BoxId, cur: Cursor, cur': Cursor,
                             lineStart: real, maxX: real)
    requires AllIn(others, |boxes|) && b < |boxes| && !cur.kind.Inline?
    requires var atLineStart := ReservesLineStart(boxes[b].floatMode, cur.kind.own.goingLeftwards);
             && cur.activeFloats == others + [b]
             && cur.lineStart == lineStart + (if atLineStart then boxes[b].width else 0.0)
             && cur.kind.own.maxX == maxX - (if atLineStart then 0.0 else boxes[b].width)
    requires BreakReleased(boxes, cur, cur')
    ensures var box := boxes[b];
            var fs := cur.kind.own;
            var penY := fs.penY + cur.lineHeight;
            var atLineStart := ReservesLineStart(box.floatMode, fs.goingLeftwards);
            var passed := Passed(box, penY);
            && cur'.activeFloats == Kept(boxes, others, penY) + (if passed then [] else [b])
            && cur'.lineStart == lineStart + (if atLineStart && !passed then box.width else 0.0)
                                 - ReleasedWidth(boxes, others, penY, fs.goingLeftwards, true)
            && cur'.kind.own.maxX == maxX - (if !atLineStart && !passed then box.width else 0.0)
                                     + ReleasedWidth(boxes, others, penY, fs.goingLeftwards, false)
  {
    ReleaseLastFloat(boxes, others, b, cur.kind.own.penY + cur.lineHeight, cur.kind.own.goingLeftwards, lineStart, maxX);
  }

  /** The float part of a flow root's break on an empty line: the boxes stay,
      the kept floats remain and each edge regains the released widths. */
  lemma FlowRootBreakReleases(st: State, c: CursorId, st': State)
    requires Valid(st) && c < |st.cursors| && IsFlowRoot(st.cursors[c].kind)
    requires st.cursors[c].onLine == [] && st.cursors[c].outOfFlow == []
    ensures CompleteLine(st, c, true, false).Success?
    ensures CompleteLine(st, c, true, false) == Success(st') ==>
              st'.boxes == st.boxes && BreakReleased(st.boxes, st.cursors[c], st'.cursors[c])
  {
    FlowRootCompletesLine(st, c, true, false);
  }

  /** No id of `ids` reaches `n`, so the box allocated at `n` is on no list. */
  lemma FreshNotIn(ids: seq<BoxId>, n: nat)
    requires AllIn(ids, n)
    ensures n !in ids
  {
  }

  /** Fragment synthesis: the new box is styled after the element box (border,
      padding, display and position modes, margin without its left part) and is
      fresh; it becomes the cursor's current box, the tail of the element's
      fragment chain (the old tail links to it) and the last box on the parent's
      line. */
  lemma WrapSynthesizesFragment(st: State, c: CursorId, p: CursorId, box: Box)
    requires Valid(st) && c < |st.cursors| && p < |st.cursors| && box.InFlow()
    requires st.cursors[c].renderData.Some? && st.renders[st.cursors[c].renderData.value].lastBox.Some?
    ensures Wrap(st, c, p, box).Success?
    ensures var st' := Wrap(st, c, p, box).value;
            var f := |st.boxes|;
            var rd := st.cursors[c].renderData.value;
            var last := st.renders[rd].lastBox.value;
            && st'.cursors[c].currentBox == Some(f)
            && st'.boxes[f] == NewFragment(box).(firstChild := st'.boxes[f].firstChild)
            && st'.renders[rd].lastBox == Some(f)
            && st'.boxes[last].nextInElement == Some(f)
            && |st'.cursors[p].onLine| > 0 && st'.cursors[p].onLine[|st'.cursors[p].onLine| - 1] == f
  {
    var f := |st.boxes|;
    var st1 := StartFragment(st, c, box);
    var st2 := ChainFragment(st1, c, f).value;
    var cp := st2.cursors[p];
    assert CursorValid(st.cursors[p], |st.boxes|, |st.cursors|, |st.renders|);
    assert cp.onLine == st.cursors[p].onLine && cp.outOfFlow == st.cursors[p].outOfFlow
           && cp.lineStarts == st.cursors[p].lineStarts;
    FreshNotIn(cp.onLine, f);
    FreshNotIn(cp.outOfFlow, f);
    FreshNotIn(cp.lineStarts, f);
    AddToLineDestination(st2, p, f);
    AddToLineKeepsBox(st2, p, f);
  }

  /** Alignment moves boxes and nothing else: every record keeps all its fields
      but the two parent offsets. */
  predicate OffsetsOnly(boxes: seq<Box>, boxes': seq<Box>)
  {
    && |boxes'| == |boxes|
    && forall x :: 0 <= x < |boxes| ==>
         boxes'[x] == boxes[x].(parentOffsetTop := boxes'[x].parentOffsetTop, parentOffsetLeft := boxes'[x].parentOffsetLeft)
  }

  /** Both alignment passes change box offsets only. */
  lemma AlignPassesMoveOnly(boxes: seq<Box>, onLine: seq<BoxId>, outOfFlow: seq<BoxId>, bottom: real, lineStart: real)
    requires AllIn(onLine, |boxes|) && AllIn(outOfFlow, |boxes|)
    ensures OffsetsOnly(boxes, AlignOutOfFlow(AlignOnLine(boxes, onLine, bottom), outOfFlow, bottom, lineStart))
  {
    var mid := AlignOnLine(boxes, onLine, bottom);
    var r := AlignOutOfFlow(mid, outOfFlow, bottom, lineStart);
    forall x | 0 <= x < |boxes|
      ensures mid[x] == boxes[x].(parentOffsetTop := mid[x].parentOffsetTop, parentOffsetLeft := mid[x].parentOffsetLeft)
    {
      if x in onLine {
        var i :| 0 <= i < |onLine| && onLine[i] == x;
      }
    }
    forall x | 0 <= x < |boxes|
      ensures r[x] == mid[x].(parentOffsetTop := r[x].parentOffsetTop, parentOffsetLeft := r[x].parentOffsetLeft)
    {
      if x in outOfFlow {
        var i :| 0 <= i < |outOfFlow| && outOfFlow[i] == x;
      }
    }
  }

  /** The tail of a propagated break: the wrap, then the pen reset, which
      keeps the fresh fragment as it was wrapped. */
  lemma WrapThenResetKeepsFragment(st: State, c: CursorId, p: CursorId, element: Box, st': State)
    requires Valid(st) && c < |st.cursors| && p < |st.cursors| && element.InFlow()
    ensures Wrap(st, c, p, element).Success? && ResetPen(Wrap(st, c, p, element).value, c) == Success(st') ==>
              var f := |st'.boxes| - 1;
              var onLine := st'.cursors[p].onLine;
              && f == |st.boxes|
              && st'.cursors[c].currentBox == Some(f)
              && st'.boxes[f] == NewFragment(element).(firstChild := st'.boxes[f].firstChild)
              && |onLine| > 0 && onLine[|onLine| - 1] == f
              && st'.cursors[c].renderData == st.cursors[c].renderData
              && st'.renders[st.cursors[c].renderData.value].lastBox == Some(f)
  {
    if Wrap(st, c, p, element).Success? && ResetPen(Wrap(st, c, p, element).value, c) == Success(st') {
      var st5 := Wrap(st, c, p, element).value;
      WrapSynthesizesFragment(st, c, p, element);
      assert st'.boxes == st5.boxes;
      assert st'.cursors[c].currentBox == st5.cursors[c].currentBox;
      assert st'.cursors[p].onLine == st5.cursors[p].onLine;
    }
  }

  /** A break on a nested cursor whose element box is in flow and no flow root
      ends, when it succeeds, with a fresh fragment as the cursor's current box:
      the last box allocated, styled after the element box as it was before the
      line completed, the last box on the parent's line, and the new tail of the
      element's fragment chain (its render data's last box). */
  lemma BreakSynthesizesFragment(st: State, c: CursorId, topOfStack: bool, st': State)
    requires Valid(st) && c < |st.cursors| && !IsFlowRoot(st.cursors[c].kind)
    requires var cur := st.cursors[c];
             && cur.currentBox.Some? && cur.parent.Some?
             && cur.currentBox.value < |st.boxes|
             && st.boxes[cur.currentBox.value].InFlow() && !st.boxes[cur.currentBox.value].display.flowRoot
    ensures CompleteLine(st, c, true, topOfStack) == Success(st') ==>
              var cur := st.cursors[c];
              var f := |st'.boxes| - 1;
              var onLine := st'.cursors[cur.parent.value].onLine;
              && |st.boxes| <= f
              && st'.cursors[c].currentBox == Some(f)
              && st'.boxes[f] == NewFragment(st.boxes[cur.currentBox.value]).(firstChild := st'.boxes[f].firstChild)
              && |onLine| > 0 && onLine[|onLine| - 1] == f
              && st'.renders[cur.renderData.value].lastBox == Some(f)
  {
    if CompleteLine(st, c, true, topOfStack) == Success(st') {
      var cur := st.cursors[c];
      var b := cur.currentBox.value;
      var p := cur.parent.value;
      var lineHeight := cur.lineHeight;
      var st1 := AlignLine(st, c, lineHeight).value;
      assert st1.cursors[c] == cur.(onLine := [], outOfFlow := []);
      var element := st1.boxes[b];
      assert PendingBreak(st1, c) == Some(Pending(p, element));
      var st2 := SettleLine(st1, c, true, lineHeight).value;
      var st4 := CompleteLineN(st2, p, true, false, |st.cursors| - 1).value;
      assert Wrap(st4, c, p, element).Success? && ResetPen(Wrap(st4, c, p, element).value, c) == Success(st');
      WrapThenResetKeepsFragment(st4, c, p, element, st');
      assert NewFragment(element) == NewFragment(st.boxes[b]);
    }
  }

  /** Out of flow, the element box is sized and the parent is never consulted:
      without a break the cursor's `CompleteLine` succeeds whatever its parent
      reference holds and changes no cursor. */
  lemma OutOfFlowElementSkipsParent(st: State, c: CursorId)
    requires Valid(st) && c < |st.cursors| && !IsFlowRoot(st.cursors[c].kind)
    requires st.cursors[c].currentBox.Some? && !st.boxes[st.cursors[c].currentBox.value].InFlow()
    ensures CompleteLine(st, c, false, false).Success?
    ensures var st' := CompleteLine(st, c, false, false).value;
            var cur := st.cursors[c];
            var b := cur.currentBox.value;
            && st'.cursors == st.cursors
            && st'.boxes == st.boxes[b := st.boxes[b].(innerHeight := cur.lineHeight, innerWidth := cur.penX - cur.lineStart,
                                                       contentHeight := cur.lineHeight, contentWidth := cur.penX - cur.lineStart)]
  {
    var cur := st.cursors[c];
    var b := cur.currentBox.value;
    var sized := SizeBox(st, b, cur.lineHeight, cur.penX - cur.lineStart);
    assert SettleLine(st, c, false, cur.lineHeight) == Success(sized);
    assert CompleteLineN(st, c, false, false, |st.cursors|) == Success(sized);
  }

  /** Placing the element box on the parent's line sizes it by the line's
      height and the pen's run from the line start. */
  lemma PlaceOnParentSizesBox(st: State, c: CursorId, p: CursorId, b: BoxId, lineHeight: real, st': State)
    requires Valid(st) && c < |st.cursors| && p < |st.cursors| && b < |st.boxes|
    ensures PlaceOnParent(st, c, p, b, lineHeight) == Success(st') ==>
              var run := st.cursors[c].penX - st.cursors[c].lineStart;
              && st'.boxes[b].innerHeight == lineHeight && st'.boxes[b].contentHeight == lineHeight
              && st'.boxes[b].innerWidth == run && st'.boxes[b].contentWidth == run
  {
    if PlaceOnParent(st, c, p, b, lineHeight) == Success(st') {
      var sa := RaiseLineHeight(st, p, lineHeight);
      var sb := SizeBox(sa, b, lineHeight, st.cursors[c].penX - st.cursors[c].lineStart);
      assert AdvancePen(sb, p, b) == Success(st');
      if sb.boxes[b].floatMode == NoFloat {
        AdvancePenInFlow(sb, p, b);
      } else {
        AdvancePenFloatReserves(sb, p, b, st');
      }
      assert st'.boxes[b] == sb.boxes[b].(parentOffsetLeft := st'.boxes[b].parentOffsetLeft);
    }
  }

  /** Placing the element box on the parent's line leaves the parent's line
      height at least the child line's height and at least its old value. */
  lemma PlaceOnParentRaisesParent(st: State, c: CursorId, p: CursorId, b: BoxId, lineHeight: real, st': State)
    requires Valid(st) && c < |st.cursors| && p < |st.cursors| && b < |st.boxes|
    ensures PlaceOnParent(st, c, p, b, lineHeight) == Success(st') ==>
              st'.cursors[p].lineHeight >= lineHeight && st'.cursors[p].lineHeight >= st.cursors[p].lineHeight
  {
    if PlaceOnParent(st, c, p, b, lineHeight) == Success(st') {
      var sa := RaiseLineHeight(st, p, lineHeight);
      var sb := SizeBox(sa, b, lineHeight, st.cursors[c].penX - st.cursors[c].lineStart);
      assert AdvancePen(sb, p, b) == Success(st');
      AdvancePenLineHeightGrows(sb, p, b);
    }
  }

  /** Without a break, a line completes by its alignment (at the top of the
      stack) and the settling step, and nothing reaches the parent's line. */
  lemma NoBreakUnfold(st: State, c: CursorId, topOfStack: bool, fuel: nat)
    requires Valid(st) && c < |st.cursors|
    requires topOfStack ==> AlignLine(st, c, st.cursors[c].lineHeight).Success?
    ensures var lineHeight := st.cursors[c].lineHeight;
            var st1 := if topOfStack then AlignLine(st, c, lineHeight).value else st;
            CompleteLineN(st, c, false, topOfStack, fuel) == SettleLine(st1, c, topOfStack, lineHeight)
  {
  }

  /** On a nested cursor with an in-flow element box and a parent, settling is
      placing the box on the parent's line. */
  lemma SettleNestedPlaces(st: State, c: CursorId, p: CursorId, b: BoxId, aligned: bool, lineHeight: real)
    requires Valid(st) && c < |st.cursors| && !IsFlowRoot(st.cursors[c].kind)
    requires st.cursors[c].currentBox == Some(b) && st.cursors[c].parent == Some(p)
    requires b < |st.boxes| && p < |st.cursors| && st.boxes[b].InFlow()
    ensures SettleLine(st, c, aligned, lineHeight) == PlaceOnParent(st, c, p, b, lineHeight)
  {
  }

  /** Without a break, a nested cursor with an in-flow element box and a
      parent completes its line by placing the box on the parent's line. */
  lemma NestedNoBreakPlaces(st: State, c: CursorId, p: CursorId, b: BoxId, topOfStack: bool, fuel: nat)
    requires Valid(st) && c < |st.cursors| && !IsFlowRoot(st.cursors[c].kind)
    requires st.cursors[c].currentBox == Some(b) && st.cursors[c].parent == Some(p)
    requires b < |st.boxes| && p < |st.cursors| && st.boxes[b].InFlow()
    requires topOfStack ==> AlignLine(st, c, st.cursors[c].lineHeight).Success?
    ensures var lineHeight := st.cursors[c].lineHeight;
            var st1 := if topOfStack then AlignLine(st, c, lineHeight).value else st;
            && |st1.boxes| == |st.boxes| && |st1.cursors| == |st.cursors|
            && CompleteLineN(st, c, false, topOfStack, fuel) == PlaceOnParent(st1, c, p, b, lineHeight)
  {
    var lineHeight := st.cursors[c].lineHeight;
    var st1 := if topOfStack then AlignLine(st, c, lineHeight).value else st;
    NoBreakUnfold(st, c, topOfStack, fuel);
    assert st1.cursors[c] == st.cursors[c].(onLine := st1.cursors[c].onLine, outOfFlow := st1.cursors[c].outOfFlow);
    SettleNestedPlaces(st1, c, p, b, topOfStack, lineHeight);
  }

  /** A nested cursor finishing a line without a break: the in-flow element box
      takes the line's height as its inner and content height and the pen's run
      from the line start as its inner and content width, and the parent's line
      height rises to at least this line's height. */
  lemma NestedLineSizesBox(st: State, c: CursorId, topOfStack: bool)
    requires Valid(st) && c < |st.cursors| && !IsFlowRoot(st.cursors[c].kind)
    requires var cur := st.cursors[c];
             cur.currentBox.Some? && cur.parent.Some? && cur.parent.value != c
             && cur.currentBox.value !in cur.onLine && cur.currentBox.value !in cur.outOfFlow
    requires st.boxes[st.cursors[c].currentBox.value].InFlow()
    ensures CompleteLine(st, c, false, topOfStack).Success? ==>
              var st' := CompleteLine(st, c, false, topOfStack).value;
              var cur := st.cursors[c];
              var b := cur.currentBox.value;
              var p := cur.parent.value;
              && st'.boxes[b].innerHeight == cur.lineHeight && st'.boxes[b].contentHeight == cur.lineHeight
              && st'.boxes[b].innerWidth == cur.penX - cur.lineStart && st'.boxes[b].contentWidth == cur.penX - cur.lineStart
              && st'.cursors[p].lineHeight >= cur.lineHeight
              && st'.cursors[p].lineHeight >= st.cursors[p].lineHeight
  {
    if CompleteLine(st, c, false, topOfStack).Success? {
      var cur := st.cursors[c];
      var b := cur.currentBox.value;
      var p := cur.parent.value;
      assert CursorValid(cur, |st.boxes|, |st.cursors|, |st.renders|);
      var st1 := if topOfStack then AlignLine(st, c, cur.lineHeight).value else st;
      if topOfStack {
        if |cur.onLine| > 0 || |cur.outOfFlow| > 0 {
          AlignLinePlacesBoxes(st, c, cur.lineHeight, st1);
        }
      }
      assert st1.boxes[b] == st.boxes[b];
      assert st1.cursors[c] == cur.(onLine := st1.cursors[c].onLine, outOfFlow := st1.cursors[c].outOfFlow);
      assert st1.cursors[p] == st.cursors[p];
      NestedNoBreakPlaces(st, c, p, b, topOfStack, |st.cursors|);
      var r := CompleteLine(st, c, false, topOfStack);
      assert r == Success(r.value);
      PlaceOnParentSizesBox(st1, c, p, b, cur.lineHeight, r.value);
      PlaceOnParentRaisesParent(st1, c, p, b, cur.lineHeight, r.value);
    }
  }
}
