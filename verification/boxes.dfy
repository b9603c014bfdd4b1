/** The positioned-box record (`LayoutBox`) that the line cursor fills in.
    Geometry is exact `real`; the C# code uses `float`. */
module Boxes {
  import opened Wrappers

  /** Boxes live in an arena and are referred to by id. */
  type BoxId = nat

  /** Margin, border or padding insets. */
  datatype Sides = Sides(top: real, right: real, bottom: real, left: real)

  const NoSides := Sides(0.0, 0.0, 0.0, 0.0)

  /** The CSS `float` classification. `NoFloat` is the enum's default value. */
  datatype FloatMode = NoFloat | Left | Right

  /** The display-mode bits the cursor tests; other bits are not modelled. */
  datatype DisplayMode = DisplayMode(outsideInline: bool, outsideBlock: bool, flowRoot: bool)

  /** The position-mode bit the cursor tests (`PositionMode.InFlow`). */
  datatype PositionMode = PositionMode(inFlow: bool)

  datatype Box = Box(
    position: PositionMode,
    floatMode: FloatMode,
    display: DisplayMode,
    margin: Sides,
    border: Sides,
    padding: Sides,
    width: real,
    height: real,
    // Derived in the C# code by members this model does not include; here inputs.
    totalWidth: real,
    totalHeight: real,
    innerWidth: real,
    innerHeight: real,
    contentWidth: real,
    contentHeight: real,
    parentOffsetLeft: real,
    parentOffsetTop: real,
    // Ownership-free links: the on-line / out-of-flow chain, the line-start chain,
    // the fragment chain of one element, and the first structural child.
    nextOnLine: Option<BoxId>,
    nextLineStart: Option<BoxId>,
    nextInElement: Option<BoxId>,
    firstChild: Option<BoxId>,
    // Derived from the element's style elsewhere; an input here.
    inlineStyleOffsetLeft: real)
  {
    predicate InFlow() {
      position.inFlow
    }
  }

  /** A box as `new LayoutBox()` creates it: every field at its default. */
  const EmptyBox := Box(PositionMode(false), NoFloat, DisplayMode(false, false, false),
                        NoSides, NoSides, NoSides,
                        0.0, 0.0, 0.0, 0.0, 0.0, 0.0, 0.0, 0.0, 0.0, 0.0,
                        None, None, None, None, 0.0)

  /** The anonymous box that continues an element on the next line: it takes the
      element box's border, padding, margin (with no left margin), display and
      position modes, and nothing else. */
  function NewFragment(b: Box): (f: Box)
    ensures f.border == b.border && f.padding == b.padding
    ensures f.margin == b.margin.(left := 0.0)
    ensures f.display == b.display && f.position == b.position
    ensures f.floatMode == NoFloat
    ensures f.nextOnLine == None && f.nextLineStart == None && f.nextInElement == None
    ensures f.width == 0.0 && f.height == 0.0
  {
    EmptyBox.(border := b.border, padding := b.padding, margin := b.margin.(left := 0.0),
              display := b.display, position := b.position)
  }

  /** Every later fragment of an element looks like the first synthesised one:
      synthesising from a fragment reproduces it. */
  lemma FragmentOfFragment(b: Box)
    ensures NewFragment(NewFragment(b)) == NewFragment(b)
  {
  }

  /** The height the box contributes to its line: the inner height of an
      outside-inline box when going left to right, the total height otherwise. */
  function EffectiveHeight(b: Box, goingLeftwards: bool): real
  {
    if !goingLeftwards && b.display.outsideInline then b.innerHeight else b.totalHeight
  }

  /** How far the box's top sits above the line's bottom: its height and bottom
      margin, less its bottom border and padding when it is outside-inline. */
  function BaselineDrop(b: Box): real
  {
    b.height + b.margin.bottom - (if b.display.outsideInline then b.border.bottom + b.padding.bottom else 0.0)
  }
}
