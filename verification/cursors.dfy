/** The line cursors (`LineBoxMeta` and its subclasses) and the layout state they
    live in, with the accessor delegation that decides whose pen Y, max X,
    direction and largest line width a cursor reads and writes. */
module Cursors {
  import opened Wrappers
  import opened Boxes

  type CursorId = nat
  type RenderId = nat

  /** The storage `BlockBoxMeta` owns: `PenY_`, `GoingLeftwards_`, `MaxX_`,
      `LargestLineWidth_`. (`LineStart_` is declared there but never used.) */
  datatype FlowState = FlowState(penY: real, goingLeftwards: bool, maxX: real, largestLineWidth: real)

  /** The three cursor classes. Only the block-derived ones carry storage. */
  datatype CursorKind =
    | Block(own: FlowState)
    | Inline
    | InlineBlock(blockMode: bool, own: FlowState)

  /** The per-flow-context cursor. The C# first/last pointers of each line list
      are kept as sequence views; the boxes' own link fields are kept as well. */
  datatype Cursor = Cursor(
    kind: CursorKind,
    hostBlock: Option<CursorId>,
    parent: Option<CursorId>,
    renderData: Option<RenderId>,
    currentBox: Option<BoxId>,
    lineHeight: real,
    baseline: real,
    penX: real,
    lineStart: real,
    fontSize: Option<real>,       // None is the float.MinValue "unset" sentinel
    cssLineHeight: Option<real>,  // likewise
    onLine: seq<BoxId>,           // FirstOnLine .. LastOnLine
    outOfFlow: seq<BoxId>,        // FirstOutOfFlow .. LastOutOfFlow
    lineStarts: seq<BoxId>,       // FirstLineStart .. LastLineStart
    activeFloats: seq<BoxId>)     // null and empty behave alike

  /** The part of `RenderableData` the cursor touches: the tail of the element's fragment chain. */
  datatype RenderData = RenderData(lastBox: Option<BoxId>)

  /** One layout pass: the box arena, the cursor arena and the render data, each
      indexed by id. `new LayoutBox()` appends to the box arena. */
  datatype State = State(
    boxes: seq<Box>,
    cursors: seq<Cursor>,
    renders: seq<RenderData>)

  /** The exceptions the C# code can raise: null dereferences, and unbounded
      recursion along a cycle of host or parent references. */
  datatype Fault = NullHostBlock | NullParent | NullCurrentBox | NullRenderData | NullLastBox | EndlessRecursion

  /** `IsFlowRoot`: false for an inline cursor, true for a block, the block-mode
      flag for an inline-block. A flow root always carries its own flow state. */
  function IsFlowRoot(k: CursorKind): (b: bool)
    ensures b ==> !k.Inline?
    ensures k.Block? ==> b
    ensures k.InlineBlock? ==> (b <==> k.blockMode)
  {
    match k
    case Block(_) => true
    case Inline => false
    case InlineBlock(blockMode, _) => blockMode
  }

  /** Every id of `ids` names one of `n` boxes. */
  predicate AllIn(ids: seq<BoxId>, n: nat)
  {
    forall i :: 0 <= i < |ids| ==> ids[i] < n
  }

  /** Every reference a cursor holds resolves in arenas of the given sizes. */
  predicate CursorValid(cur: Cursor, nBoxes: nat, nCursors: nat, nRenders: nat)
  {
    && (cur.hostBlock.Some? ==> cur.hostBlock.value < nCursors)
    && (cur.parent.Some? ==> cur.parent.value < nCursors)
    && (cur.renderData.Some? ==> cur.renderData.value < nRenders)
    && (cur.currentBox.Some? ==> cur.currentBox.value < nBoxes)
    && AllIn(cur.onLine, nBoxes)
    && AllIn(cur.outOfFlow, nBoxes)
    && AllIn(cur.lineStarts, nBoxes)
    && AllIn(cur.activeFloats, nBoxes)
  }

  /** Every cursor's references resolve, and `HostBlock` (typed `BlockBoxMeta`
      in C#) never names an inline cursor. */
  predicate CursorsValid(cursors: seq<Cursor>, nBoxes: nat, nRenders: nat)
  {
    && (forall c :: 0 <= c < |cursors| ==> CursorValid(cursors[c], nBoxes, |cursors|, nRenders))
    && (forall c, h :: 0 <= c < |cursors| && 0 <= h < |cursors| && cursors[c].hostBlock == Some(h) ==>
          !cursors[h].kind.Inline?)
  }

  predicate RendersValid(renders: seq<RenderData>, nBoxes: nat)
  {
    forall r :: 0 <= r < |renders| && renders[r].lastBox.Some? ==> renders[r].lastBox.value < nBoxes
  }

  /** Referential integrity of the arenas: C# references cannot dangle. */
  predicate Valid(st: State)
  {
    CursorsValid(st.cursors, |st.boxes|, |st.renders|) && RendersValid(st.renders, |st.boxes|)
  }

  /** The part of a cursor that no layout operation changes. */
  datatype Skeleton = Skeleton(flowRoot: bool, inline: bool, hostBlock: Option<CursorId>,
                               parent: Option<CursorId>, renderData: Option<RenderId>)

  function SkeletonOf(cur: Cursor): Skeleton
  {
    Skeleton(IsFlowRoot(cur.kind), cur.kind.Inline?, cur.hostBlock, cur.parent, cur.renderData)
  }

  /** `st'` has the same cursors with the same kinds and references, the same
      number of render data, and at least the boxes of `st`. */
  predicate SameShape(st: State, st': State)
  {
    && |st'.cursors| == |st.cursors|
    && (forall c :: 0 <= c < |st.cursors| ==> SkeletonOf(st'.cursors[c]) == SkeletonOf(st.cursors[c]))
    && |st'.renders| == |st.renders|
    && |st.boxes| <= |st'.boxes|
  }

  lemma SameShapeTransitive(a: State, b: State, c: State)
    requires SameShape(a, b) && SameShape(b, c)
    ensures SameShape(a, c)
  {
  }

  // ---------------------------------------------------------------------------
  // Updating the arenas while keeping them valid.
  // ---------------------------------------------------------------------------

  /** Replace the record of an existing box. */
  function PutBox(st: State, b: BoxId, box: Box): (st': State)
    requires Valid(st) && b < |st.boxes|
    ensures Valid(st') && SameShape(st, st')
    ensures st'.boxes == st.boxes[b := box] && st'.cursors == st.cursors && st'.renders == st.renders
  {
    st.(boxes := st.boxes[b := box])
  }

  /** Replace the whole box arena by one of the same size. */
  function PutBoxes(st: State, boxes: seq<Box>): (st': State)
    requires Valid(st) && |boxes| == |st.boxes|
    ensures Valid(st') && SameShape(st, st')
    ensures st'.boxes == boxes && st'.cursors == st.cursors && st'.renders == st.renders
  {
    st.(boxes := boxes)
  }

  /** Replace a cursor by one with the same skeleton whose references resolve. */
  function PutCursor(st: State, c: CursorId, cur: Cursor): (st': State)
    requires Valid(st) && c < |st.cursors|
    requires SkeletonOf(cur) == SkeletonOf(st.cursors[c]) && CursorValid(cur, |st.boxes|, |st.cursors|, |st.renders|)
    ensures Valid(st') && SameShape(st, st')
    ensures st'.cursors == st.cursors[c := cur] && st'.boxes == st.boxes && st'.renders == st.renders
  {
    var st' := st.(cursors := st.cursors[c := cur]);
    assert forall x, h :: 0 <= x < |st'.cursors| && 0 <= h < |st'.cursors| && st'.cursors[x].hostBlock == Some(h) ==>
              !st'.cursors[h].kind.Inline? by {
      forall x, h | 0 <= x < |st'.cursors| && 0 <= h < |st'.cursors| && st'.cursors[x].hostBlock == Some(h)
        ensures !st'.cursors[h].kind.Inline?
      {
        assert SkeletonOf(st'.cursors[x]) == SkeletonOf(st.cursors[x]);
        assert SkeletonOf(st'.cursors[h]) == SkeletonOf(st.cursors[h]);
      }
    }
    st'
  }

  /** Replace an element's render data. */
  function PutRender(st: State, r: RenderId, rd: RenderData): (st': State)
    requires Valid(st) && r < |st.renders|
    requires rd.lastBox.Some? ==> rd.lastBox.value < |st.boxes|
    ensures Valid(st') && SameShape(st, st')
    ensures st'.renders == st.renders[r := rd] && st'.boxes == st.boxes && st'.cursors == st.cursors
  {
    st.(renders := st.renders[r := rd])
  }

  /** Allocate a box (`new LayoutBox()`): it gets the next id. */
  function NewBox(st: State, box: Box): (st': State)
    requires Valid(st)
    ensures Valid(st') && SameShape(st, st')
    ensures st'.boxes == st.boxes + [box] && st'.cursors == st.cursors && st'.renders == st.renders
  {
    var st' := st.(boxes := st.boxes + [box]);
    assert forall c :: 0 <= c < |st.cursors| ==> CursorValid(st.cursors[c], |st'.boxes|, |st.cursors|, |st.renders|) by {
      forall c | 0 <= c < |st.cursors|
        ensures CursorValid(st.cursors[c], |st'.boxes|, |st.cursors|, |st.renders|)
      {
        assert CursorValid(st.cursors[c], |st.boxes|, |st.cursors|, |st.renders|);
      }
    }
    st'
  }

  // ---------------------------------------------------------------------------
  // Owner resolution: whose FlowState a cursor's geometric accessors use.
  // ---------------------------------------------------------------------------

  /** A block (and an inline-block in block mode) uses its own storage. An
      inline cursor uses `HostBlock`'s raw fields. An inline-block outside block
      mode uses `HostBlock`'s virtual property, which may delegate again; `fuel`
      bounds that recursion and running out of it is the C# stack overflow. */
  function OwnerN(st: State, c: CursorId, fuel: nat): (r: Result<CursorId, Fault>)
    requires Valid(st) && c < |st.cursors|
    ensures r.Success? ==> r.value < |st.cursors| && !st.cursors[r.value].kind.Inline?
    ensures IsFlowRoot(st.cursors[c].kind) ==> r == Success(c)
    ensures r.Failure? ==> !IsFlowRoot(st.cursors[c].kind)
    decreases fuel
  {
    var cur := st.cursors[c];
    match cur.kind
    case Block(_) => Success(c)
    case Inline =>
      if cur.hostBlock.None? then Failure(NullHostBlock) else Success(cur.hostBlock.value)
    case InlineBlock(blockMode, _) =>
      if blockMode then Success(c)
      else if cur.hostBlock.None? then Failure(NullHostBlock)
      else if fuel == 0 then Failure(EndlessRecursion)
      else OwnerN(st, cur.hostBlock.value, fuel - 1)
  }

  function Owner(st: State, c: CursorId): Result<CursorId, Fault>
    requires Valid(st) && c < |st.cursors|
  {
    OwnerN(st, c, |st.cursors|)
  }

  /** Resolution starting at a block-derived cursor always ends at a flow root. */
  lemma {:induction false} OwnerOfBlockIsFlowRoot(st: State, c: CursorId, fuel: nat)
    requires Valid(st) && c < |st.cursors| && !st.cursors[c].kind.Inline?
    ensures OwnerN(st, c, fuel).Success? ==> IsFlowRoot(st.cursors[OwnerN(st, c, fuel).value].kind)
    decreases fuel
  {
    var cur := st.cursors[c];
    if cur.kind.InlineBlock? && !cur.kind.blockMode && cur.hostBlock.Some? && fuel > 0 {
      OwnerOfBlockIsFlowRoot(st, cur.hostBlock.value, fuel - 1);
    }
  }

  /** A cursor uses its own storage exactly when it is a flow root. */
  lemma OwnsIffFlowRoot(st: State, c: CursorId)
    requires Valid(st) && c < |st.cursors|
    ensures Owner(st, c) == Success(c) <==> IsFlowRoot(st.cursors[c].kind)
  {
    var cur := st.cursors[c];
    if cur.kind.InlineBlock? && !cur.kind.blockMode && cur.hostBlock.Some? && |st.cursors| > 0 {
      OwnerOfBlockIsFlowRoot(st, cur.hostBlock.value, |st.cursors| - 1);
    }
  }

  /** More fuel does not change a resolution that did not run out. */
  lemma {:induction false} OwnerFuelMonotone(st: State, c: CursorId, fuel: nat, fuel': nat)
    requires Valid(st) && c < |st.cursors| && fuel <= fuel'
    requires OwnerN(st, c, fuel) != Failure(EndlessRecursion)
    ensures OwnerN(st, c, fuel') == OwnerN(st, c, fuel)
    decreases fuel
  {
    var cur := st.cursors[c];
    if cur.kind.InlineBlock? && !cur.kind.blockMode && cur.hostBlock.Some? {
      OwnerFuelMonotone(st, cur.hostBlock.value, fuel - 1, fuel' - 1);
    }
  }

  /** Resolution depends only on the cursors' skeletons. */
  lemma {:induction false} OwnerSameShape(st: State, st': State, c: CursorId, fuel: nat)
    requires Valid(st) && Valid(st') && c < |st.cursors| && SameShape(st, st')
    ensures OwnerN(st', c, fuel) == OwnerN(st, c, fuel)
    decreases fuel
  {
    var cur := st.cursors[c];
    var cur' := st'.cursors[c];
    assert SkeletonOf(cur') == SkeletonOf(cur);
    if cur.kind.InlineBlock? && !cur.kind.blockMode && cur.hostBlock.Some? && fuel > 0 {
      OwnerSameShape(st, st', cur.hostBlock.value, fuel - 1);
    }
  }

  // ---------------------------------------------------------------------------
  // Reading and writing the delegated storage.
  // ---------------------------------------------------------------------------

  /** Replace the storage of block-derived cursor `o`. */
  function SetOwn(st: State, o: CursorId, fs: FlowState): (st': State)
    requires Valid(st) && o < |st.cursors| && !st.cursors[o].kind.Inline?
    ensures Valid(st') && SameShape(st, st')
    ensures st'.cursors[o] == st.cursors[o].(kind := st.cursors[o].kind.(own := fs))
    ensures st'.boxes == st.boxes && st'.renders == st.renders
    ensures forall x :: 0 <= x < |st.cursors| && x != o ==> st'.cursors[x] == st.cursors[x]
  {
    var cur := st.cursors[o];
    PutCursor(st, o, cur.(kind := cur.kind.(own := fs)))
  }

  /** The FlowState a cursor's `PenY`, `GoingLeftwards`, `MaxX` and `LargestLineWidth` read. */
  function FlowOf(st: State, c: CursorId): Result<FlowState, Fault>
    requires Valid(st) && c < |st.cursors|
  {
    var o :- Owner(st, c);
    Success(st.cursors[o].kind.own)
  }

  /** Writing any of those four accessors: the new FlowState goes to the owner. */
  function WithFlow(st: State, c: CursorId, fs: FlowState): (r: Result<State, Fault>)
    requires Valid(st) && c < |st.cursors|
    ensures r.Success? ==> Valid(r.value) && SameShape(st, r.value)
    ensures r.Success? ==> r.value.boxes == st.boxes && r.value.renders == st.renders
    ensures r.Failure? <==> Owner(st, c).Failure?
  {
    var o :- Owner(st, c);
    Success(SetOwn(st, o, fs))
  }

  function PenY(st: State, c: CursorId): Result<real, Fault>
    requires Valid(st) && c < |st.cursors|
  {
    var fs :- FlowOf(st, c);
    Success(fs.penY)
  }

  function MaxX(st: State, c: CursorId): Result<real, Fault>
    requires Valid(st) && c < |st.cursors|
  {
    var fs :- FlowOf(st, c);
    Success(fs.maxX)
  }

  function GoingLeftwards(st: State, c: CursorId): Result<bool, Fault>
    requires Valid(st) && c < |st.cursors|
  {
    var fs :- FlowOf(st, c);
    Success(fs.goingLeftwards)
  }

  function LargestLineWidth(st: State, c: CursorId): Result<real, Fault>
    requires Valid(st) && c < |st.cursors|
  {
    var fs :- FlowOf(st, c);
    Success(fs.largestLineWidth)
  }

  function SetPenY(st: State, c: CursorId, v: real): Result<State, Fault>
    requires Valid(st) && c < |st.cursors|
  {
    var fs :- FlowOf(st, c);
    WithFlow(st, c, fs.(penY := v))
  }

  function SetMaxX(st: State, c: CursorId, v: real): Result<State, Fault>
    requires Valid(st) && c < |st.cursors|
  {
    var fs :- FlowOf(st, c);
    WithFlow(st, c, fs.(maxX := v))
  }

  function SetGoingLeftwards(st: State, c: CursorId, v: bool): Result<State, Fault>
    requires Valid(st) && c < |st.cursors|
  {
    var fs :- FlowOf(st, c);
    WithFlow(st, c, fs.(goingLeftwards := v))
  }

  function SetLargestLineWidth(st: State, c: CursorId, v: real): Result<State, Fault>
    requires Valid(st) && c < |st.cursors|
  {
    var fs :- FlowOf(st, c);
    WithFlow(st, c, fs.(largestLineWidth := v))
  }

  /** An inline cursor reads and writes its host block's raw storage. */
  lemma InlineDelegatesToHost(st: State, c: CursorId, fs: FlowState)
    requires Valid(st) && c < |st.cursors|
    requires st.cursors[c].kind.Inline? && st.cursors[c].hostBlock.Some?
    ensures var h := st.cursors[c].hostBlock.value;
            && FlowOf(st, c) == Success(st.cursors[h].kind.own)
            && WithFlow(st, c, fs) == Success(SetOwn(st, h, fs))
  {
  }

  /** An inline cursor without a host block faults on every geometric access. */
  lemma InlineWithoutHostFaults(st: State, c: CursorId, fs: FlowState)
    requires Valid(st) && c < |st.cursors|
    requires st.cursors[c].kind.Inline? && st.cursors[c].hostBlock.None?
    ensures FlowOf(st, c) == Failure(NullHostBlock)
    ensures WithFlow(st, c, fs) == Failure(NullHostBlock)
  {
  }

  /** A block, and an inline-block in block mode, use their own storage. */
  lemma FlowRootUsesOwnStorage(st: State, c: CursorId, fs: FlowState)
    requires Valid(st) && c < |st.cursors| && IsFlowRoot(st.cursors[c].kind)
    ensures FlowOf(st, c) == Success(st.cursors[c].kind.own)
    ensures WithFlow(st, c, fs) == Success(SetOwn(st, c, fs))
  {
  }

  /** An inline-block outside block mode behaves as its host block's accessors do
      (unless its own resolution exhausts the recursion bound). */
  lemma InlineBlockDelegatesToHost(st: State, c: CursorId, fs: FlowState)
    requires Valid(st) && c < |st.cursors|
    requires st.cursors[c].kind.InlineBlock? && !st.cursors[c].kind.blockMode
    requires st.cursors[c].hostBlock.Some?
    requires Owner(st, c) != Failure(EndlessRecursion)
    ensures Owner(st, c) == Owner(st, st.cursors[c].hostBlock.value)
    ensures FlowOf(st, c) == FlowOf(st, st.cursors[c].hostBlock.value)
    ensures WithFlow(st, c, fs) == WithFlow(st, st.cursors[c].hostBlock.value, fs)
  {
    var h := st.cursors[c].hostBlock.value;
    OwnerFuelMonotone(st, h, |st.cursors| - 1, |st.cursors|);
  }

  /** Reading an accessor after writing it through the same cursor yields the
      written value; every other cursor's view is that of the owner's new storage. */
  lemma ReadAfterWrite(st: State, c: CursorId, fs: FlowState)
    requires Valid(st) && c < |st.cursors|
    requires WithFlow(st, c, fs).Success?
    ensures FlowOf(WithFlow(st, c, fs).value, c) == Success(fs)
  {
    var st' := WithFlow(st, c, fs).value;
    OwnerSameShape(st, st', c, |st.cursors|);
  }

  /** Writing through a cursor changes no cursor except the owner, and nothing of
      the owner except its storage. */
  lemma WriteTouchesOnlyOwner(st: State, c: CursorId, fs: FlowState)
    requires Valid(st) && c < |st.cursors|
    requires WithFlow(st, c, fs).Success?
    ensures var st' := WithFlow(st, c, fs).value;
            var o := Owner(st, c).value;
            && (forall x :: 0 <= x < |st.cursors| && x != o ==> st'.cursors[x] == st.cursors[x])
            && st'.cursors[o] == st.cursors[o].(kind := st.cursors[o].kind.(own := fs))
  {
  }

  // ---------------------------------------------------------------------------
  // Font size and CSS line height: a local override, else the host's raw field.
  // ---------------------------------------------------------------------------

  /** `FontSize`: the cursor's own value when set, else `HostBlock.FontSize_`. */
  function FontSize(st: State, c: CursorId): (r: Result<Option<real>, Fault>)
    requires Valid(st) && c < |st.cursors|
    ensures st.cursors[c].fontSize.Some? ==> r == Success(st.cursors[c].fontSize)
    ensures r.Failure? <==> st.cursors[c].fontSize.None? && st.cursors[c].hostBlock.None?
  {
    var cur := st.cursors[c];
    if cur.fontSize.Some? then Success(cur.fontSize)
    else if cur.hostBlock.None? then Failure(NullHostBlock)
    else Success(st.cursors[cur.hostBlock.value].fontSize)
  }

  /** `CssLineHeight`: the cursor's own value when set, else `HostBlock.CssLineHeight_`. */
  function CssLineHeight(st: State, c: CursorId): (r: Result<Option<real>, Fault>)
    requires Valid(st) && c < |st.cursors|
    ensures st.cursors[c].cssLineHeight.Some? ==> r == Success(st.cursors[c].cssLineHeight)
    ensures r.Failure? <==> st.cursors[c].cssLineHeight.None? && st.cursors[c].hostBlock.None?
  {
    var cur := st.cursors[c];
    if cur.cssLineHeight.Some? then Success(cur.cssLineHeight)
    else if cur.hostBlock.None? then Failure(NullHostBlock)
    else Success(st.cursors[cur.hostBlock.value].cssLineHeight)
  }

  /** The fallback reaches exactly one level up: a cursor with no font size of
      its own sees a font size set on its host, and sees "unset" when the host has
      none, whatever the host's own host holds. */
  lemma FontSizeOneLevel(st: State, c: CursorId, v: Option<real>)
    requires Valid(st) && c < |st.cursors|
    requires st.cursors[c].fontSize.None? && st.cursors[c].hostBlock.Some?
    ensures var h := st.cursors[c].hostBlock.value;
            FontSize(PutCursor(st, h, st.cursors[h].(fontSize := v)), c) == Success(v)
  {
    var h := st.cursors[c].hostBlock.value;
    assert CursorValid(st.cursors[h], |st.boxes|, |st.cursors|, |st.renders|);
  }

  // ---------------------------------------------------------------------------
  // Creating cursors.
  // ---------------------------------------------------------------------------

  /** Block-derived storage as a new `BlockBoxMeta` holds it. */
  const ZeroFlow := FlowState(0.0, false, 0.0, 0.0)

  /** What the `LineBoxMeta` constructor sets: the parent, the first box (as the
      current box) and the render data; every other field at its default: no
      host, zero pen and line, font size and line height unset, empty lists. */
  function FreshCursor(kind: CursorKind, parent: Option<CursorId>, firstBox: Option<BoxId>,
                       renderData: Option<RenderId>): (cur: Cursor)
    ensures cur.kind == kind && cur.parent == parent && cur.currentBox == firstBox && cur.renderData == renderData
    ensures cur.hostBlock == None && cur.fontSize == None && cur.cssLineHeight == None
    ensures cur.penX == 0.0 && cur.lineStart == 0.0 && cur.lineHeight == 0.0 && cur.baseline == 0.0
    ensures cur.onLine == [] && cur.outOfFlow == [] && cur.lineStarts == [] && cur.activeFloats == []
  {
    Cursor(kind, None, parent, renderData, firstBox, 0.0, 0.0, 0.0, 0.0, None, None, [], [], [], [])
  }

  /** The references handed to a constructor resolve, and the host block (typed
      `BlockBoxMeta`) is no inline cursor. */
  predicate ArgsValid(st: State, block: Option<CursorId>, parent: Option<CursorId>,
                      firstBox: Option<BoxId>, renderData: Option<RenderId>)
  {
    && (block.Some? ==> block.value < |st.cursors| && !st.cursors[block.value].kind.Inline?)
    && (parent.Some? ==> parent.value < |st.cursors|)
    && (firstBox.Some? ==> firstBox.value < |st.boxes|)
    && (renderData.Some? ==> renderData.value < |st.renders|)
  }

  /** Append a cursor whose references resolve; it gets the next id. */
  function AddCursor(st: State, cur: Cursor): (st': State)
    requires Valid(st) && ArgsValid(st, cur.hostBlock, cur.parent, cur.currentBox, cur.renderData)
    requires cur.onLine == [] && cur.outOfFlow == [] && cur.lineStarts == [] && cur.activeFloats == []
    ensures Valid(st')
    ensures st'.cursors == st.cursors + [cur] && st'.boxes == st.boxes && st'.renders == st.renders
  {
    var st' := st.(cursors := st.cursors + [cur]);
    forall c | 0 <= c < |st'.cursors|
      ensures CursorValid(st'.cursors[c], |st.boxes|, |st'.cursors|, |st.renders|)
    {
      if c < |st.cursors| {
        assert CursorValid(st.cursors[c], |st.boxes|, |st.cursors|, |st.renders|);
      }
    }
    st'
  }

  /** `new BlockBoxMeta(parent, firstBox, renderData)`: a flow root with zeroed
      storage of its own and no host. */
  function NewBlockCursor(st: State, parent: Option<CursorId>, firstBox: Option<BoxId>,
                          renderData: Option<RenderId>): (st': State)
    requires Valid(st) && ArgsValid(st, None, parent, firstBox, renderData)
    ensures Valid(st') && |st'.cursors| == |st.cursors| + 1
    ensures st'.cursors[..|st.cursors|] == st.cursors && st'.boxes == st.boxes && st'.renders == st.renders
    ensures st'.cursors[|st.cursors|] == FreshCursor(Block(ZeroFlow), parent, firstBox, renderData)
  {
    AddCursor(st, FreshCursor(Block(ZeroFlow), parent, firstBox, renderData))
  }

  /** `new InlineBoxMeta(block, parent, firstBox, renderData)`: an inline cursor
      hosted by `block` whose pen and line start sit at the parent's pen plus the
      first box's inline style offset. Reading `parent.PenX` faults first, then
      reading the first box's offset. */
  function NewInlineCursor(st: State, block: Option<CursorId>, parent: Option<CursorId>,
                           firstBox: Option<BoxId>, renderData: Option<RenderId>): (r: Result<State, Fault>)
    requires Valid(st) && ArgsValid(st, block, parent, firstBox, renderData)
    ensures r.Failure? <==> parent.None? || firstBox.None?
    ensures parent.None? ==> r == Failure(NullParent)
    ensures r.Success? ==>
              var st' := r.value;
              var penX := st.cursors[parent.value].penX + st.boxes[firstBox.value].inlineStyleOffsetLeft;
              && Valid(st') && |st'.cursors| == |st.cursors| + 1
              && st'.cursors[..|st.cursors|] == st.cursors && st'.boxes == st.boxes && st'.renders == st.renders
              && st'.cursors[|st.cursors|]
                 == FreshCursor(Inline, parent, firstBox, renderData).(hostBlock := block, penX := penX, lineStart := penX)
  {
    if parent.None? then Failure(NullParent)
    else if firstBox.None? then Failure(NullCurrentBox)
    else
      var penX := st.cursors[parent.value].penX + st.boxes[firstBox.value].inlineStyleOffsetLeft;
      Success(AddCursor(st, FreshCursor(Inline, parent, firstBox, renderData).(hostBlock := block, penX := penX, lineStart := penX)))
  }

  /** `new InlineBlockBoxMeta(block, parent, firstBox, renderData)`: an
      inline-block hosted by `block`, outside block mode, with zeroed storage and
      its line start at its (zero) pen. */
  function NewInlineBlockCursor(st: State, block: Option<CursorId>, parent: Option<CursorId>,
                                firstBox: Option<BoxId>, renderData: Option<RenderId>): (st': State)
    requires Valid(st) && ArgsValid(st, block, parent, firstBox, renderData)
    ensures Valid(st') && |st'.cursors| == |st.cursors| + 1
    ensures st'.cursors[..|st.cursors|] == st.cursors && st'.boxes == st.boxes && st'.renders == st.renders
    ensures st'.cursors[|st.cursors|] == FreshCursor(InlineBlock(false, ZeroFlow), parent, firstBox, renderData).(hostBlock := block)
  {
    AddCursor(st, FreshCursor(InlineBlock(false, ZeroFlow), parent, firstBox, renderData).(hostBlock := block))
  }

  /** Appending a cursor changes no existing cursor's resolution. */
  lemma {:induction false} OwnerAppend(st: State, st': State, c: CursorId, fuel: nat)
    requires Valid(st) && Valid(st') && c < |st.cursors|
    requires |st'.cursors| > |st.cursors| && st'.cursors[..|st.cursors|] == st.cursors
    ensures OwnerN(st', c, fuel) == OwnerN(st, c, fuel)
    decreases fuel
  {
    assert st'.cursors[c] == st.cursors[c];
    var cur := st.cursors[c];
    assert CursorValid(cur, |st.boxes|, |st.cursors|, |st.renders|);
    if cur.kind.InlineBlock? && !cur.kind.blockMode && cur.hostBlock.Some? && fuel > 0 {
      OwnerAppend(st, st', cur.hostBlock.value, fuel - 1);
    }
  }

  /** A new block owns its storage, which starts zeroed. */
  lemma NewBlockOwnsZeroFlow(st: State, parent: Option<CursorId>, firstBox: Option<BoxId>, renderData: Option<RenderId>)
    requires Valid(st) && ArgsValid(st, None, parent, firstBox, renderData)
    ensures var st' := NewBlockCursor(st, parent, firstBox, renderData);
            && Owner(st', |st.cursors|) == Success(|st.cursors|)
            && FlowOf(st', |st.cursors|) == Success(ZeroFlow)
  {
  }

  /** A new inline cursor reads and writes its host block's storage, and faults
      on every geometric access when it was given no host. */
  lemma NewInlineUsesHost(st: State, block: Option<CursorId>, parent: Option<CursorId>,
                          firstBox: Option<BoxId>, renderData: Option<RenderId>)
    requires Valid(st) && ArgsValid(st, block, parent, firstBox, renderData)
    requires NewInlineCursor(st, block, parent, firstBox, renderData).Success?
    ensures var st' := NewInlineCursor(st, block, parent, firstBox, renderData).value;
            var n := |st.cursors|;
            && (block.Some? ==> FlowOf(st', n) == Success(st.cursors[block.value].kind.own))
            && (block.None? ==> FlowOf(st', n) == Failure(NullHostBlock))
            && st'.cursors[n].lineStart == st'.cursors[n].penX
  {
    var st' := NewInlineCursor(st, block, parent, firstBox, renderData).value;
    if block.Some? {
      assert st'.cursors[block.value] == st.cursors[block.value];
    }
  }

  /** A new inline-block is no flow root and resolves its geometric accessors
      exactly as its host block does in the state it was created from. */
  lemma NewInlineBlockDelegates(st: State, h: CursorId, parent: Option<CursorId>,
                                firstBox: Option<BoxId>, renderData: Option<RenderId>)
    requires Valid(st) && ArgsValid(st, Some(h), parent, firstBox, renderData)
    ensures var st' := NewInlineBlockCursor(st, Some(h), parent, firstBox, renderData);
            var n := |st.cursors|;
            && !IsFlowRoot(st'.cursors[n].kind)
            && Owner(st', n) == Owner(st, h)
            && FlowOf(st', n) == FlowOf(st, h)
  {
    var st' := NewInlineBlockCursor(st, Some(h), parent, firstBox, renderData);
    var n := |st.cursors|;
    OwnerAppend(st, st', h, n);
    assert Owner(st', n) == OwnerN(st', h, n);
    if Owner(st, h).Success? {
      var o := Owner(st, h).value;
      assert st'.cursors[o] == st.cursors[o];
    }
  }
}
