# PowerUI line layout, operator expressions, tables, forms and html assets

A Dafny model of five pieces of the PowerUI engine, a Unity HTML/CSS renderer
with its own JavaScript compiler and its own script language, Nitro:

- **The line-box cursor** (`LineBoxMeta` and its subclasses `BlockBoxMeta`,
  `InlineBoxMeta`, `InlineBlockBoxMeta`). It puts laid-out boxes onto the
  current line (`AddToLine`). It moves the pen past a box and reserves room
  for floats (`AdvancePen`). It finishes a line (`CompleteLine`): boxes are
  aligned vertically, floats the pen has passed are released, a nested
  element's box is sized and wrapped onto a new fragment, and the pen is
  reset. Cursors, boxes and render data live in three arenas indexed by id
  (`Cursors.State`). Each C# object reference is an id. Each C# mutation
  returns a new state. A null dereference is a `Fault` value.
- **The operand stack of the JavaScript parser's `OperatorExpression`**. It
  covers `FromOperator` dispatch, raw and grouped operand access, `Push`/`Pop`
  with C# 32-bit `int` wrap-around, `AcceptingOperands`, `RightBranch` and
  `Precedence`.
- **The free-column width of an html table** (`HtmlTableElement.OnComputeBox`).
- **`FormData`**: the indexer, `Checked` and `ToUrlString`. A url string is
  also parsed back, as the partner of `ToUrlString`.
- **The html-asset filter of the ahead-of-time Nitro compiler**
  (`NitroAOT.FindHtmlAssets`).

Geometry is exact `real` arithmetic. The C# code uses `float`.

Modules, one per file:

- `Wrappers`: `Option`/`Result`.
- `Boxes`: `LayoutBox`.
- `Cursors`: cursor kinds, the layout state, accessor delegation and constructors.
- `Placement`: `AddToLine`, `AdvancePen`.
- `Completion`: `CompleteLine`.
- `OperatorExpressions`, `Tables`, `Forms`, `HtmlAssets`.

Four details of the code that the model keeps as written:

- `LineStart` is a plain field on every cursor. It is never delegated to the
  host block, although `BlockBoxMeta` declares an unused `LineStart_`.
- `FontSize` and `CssLineHeight` fall back exactly one level, to the host
  block's raw field. They do not follow a chain of hosts.
- An inline cursor reads its host block's raw storage. A non-block-mode
  inline-block reads its host's virtual property, so delegation can continue.
  `Cursors.OwnerN` resolves whose storage is used.
- In the out-of-flow alignment pass (LineBoxMeta.cs:273-297) the computed
  `delta` is discarded. Every out-of-flow box goes to the line's bottom edge,
  `PenY + lineHeight`, and the model does the same.

## Model

| member | source | states |
|---|---|---|
| Boxes.NewFragment | Assets/PowerUI/Source/Engine/Rendering/LineBoxMeta.cs:402-411 | the continuation box copies border, padding, margin (left margin zeroed), display and position of the element box; it is not floated, unlinked, and has no size yet |
| Boxes.FragmentOfFragment | Assets/PowerUI/Source/Engine/Rendering/LineBoxMeta.cs:402-411 | continuing a continuation box gives the same box again |
| Cursors.OwnerN | Assets/PowerUI/Source/Engine/Rendering/LineBoxMeta.cs:104-148 | the cursor whose storage the flow accessors use is never an inline cursor; a flow root is its own owner; only a non-flow-root can fail to resolve |
| Cursors.OwnerOfBlockIsFlowRoot | Assets/PowerUI/Source/Engine/Rendering/LineBoxMeta.cs:679-728 | starting from a block-derived cursor, resolution always ends at a flow root (a block, or an inline-block in block mode) |
| Cursors.IsFlowRoot | Assets/PowerUI/Source/Engine/Rendering/LineBoxMeta.cs:133-138 | a flow root is never an inline cursor; every block is one, and an inline-block is one exactly in block mode |
| Cursors.OwnsIffFlowRoot | Assets/PowerUI/Source/Engine/Rendering/LineBoxMeta.cs:133-138 | a cursor uses its own storage if and only if it is a flow root |
| Cursors.OwnerFuelMonotone | Assets/PowerUI/Source/Engine/Rendering/LineBoxMeta.cs:679-728 | once resolution finishes within some depth, any greater depth gives the same answer |
| Cursors.OwnerSameShape | Assets/PowerUI/Source/Engine/Rendering/LineBoxMeta.cs:104-148 | resolution depends only on the kinds and host links of the cursors, not on pens, lines or boxes |
| Cursors.WithFlow | Assets/PowerUI/Source/Engine/Rendering/LineBoxMeta.cs:104-148 | a flow-state write fails exactly when resolution fails, and it never touches boxes or render data |
| Cursors.InlineDelegatesToHost | Assets/PowerUI/Source/Engine/Rendering/LineBoxMeta.cs:104-131 | an inline cursor reads and writes its host block's own storage |
| Cursors.InlineWithoutHostFaults | Assets/PowerUI/Source/Engine/Rendering/LineBoxMeta.cs:104-131 | an inline cursor without a host block faults on every flow read and write |
| Cursors.FlowRootUsesOwnStorage | Assets/PowerUI/Source/Engine/Rendering/LineBoxMeta.cs:585-623 | a block (or block-mode inline-block) reads and writes its own storage |
| Cursors.InlineBlockDelegatesToHost | Assets/PowerUI/Source/Engine/Rendering/LineBoxMeta.cs:679-728 | a non-block-mode inline-block resolves, reads and writes exactly as its host block does |
| Cursors.ReadAfterWrite | Assets/PowerUI/Source/Engine/Rendering/LineBoxMeta.cs:104-148 | reading the flow state back after writing it through a cursor gives the written value |
| Cursors.WriteTouchesOnlyOwner | Assets/PowerUI/Source/Engine/Rendering/LineBoxMeta.cs:104-148 | a flow-state write changes only the owning cursor's storage and leaves every other cursor as it was |
| Cursors.FontSize | Assets/PowerUI/Source/Engine/Rendering/LineBoxMeta.cs:88-101 | a set font size is returned as is; the read faults exactly when it is unset and there is no host block |
| Cursors.CssLineHeight | Assets/PowerUI/Source/Engine/Rendering/LineBoxMeta.cs:72-85 | a set line height is returned as is; the read faults exactly when it is unset and there is no host block |
| Cursors.FontSizeOneLevel | Assets/PowerUI/Source/Engine/Rendering/LineBoxMeta.cs:91-94 | an unset font size reads the host's raw field, whatever it holds, even unset, without going further |
| Cursors.NewBlockCursor | Assets/PowerUI/Source/Engine/Rendering/LineBoxMeta.cs:574-576 | a block cursor is appended with zeroed own storage, the given parent, first box and render data, and empty lines |
| Cursors.NewInlineCursor | Assets/PowerUI/Source/Engine/Rendering/LineBoxMeta.cs:639-645 | an inline cursor starts its pen and line start at the parent's pen plus the first box's inline offset; a null parent or first box faults |
| Cursors.NewInlineBlockCursor | Assets/PowerUI/Source/Engine/Rendering/LineBoxMeta.cs:655-660 | an inline-block cursor starts in inline mode with the given host block and a zero line start |
| Cursors.OwnerAppend | Assets/PowerUI/Source/Engine/Rendering/LineBoxMeta.cs:63-69 | creating a new cursor never changes whose storage an existing cursor uses |
| Cursors.NewBlockOwnsZeroFlow | Assets/PowerUI/Source/Engine/Rendering/LineBoxMeta.cs:574-583 | a new block cursor owns itself and its flow state starts at zero |
| Cursors.NewInlineUsesHost | Assets/PowerUI/Source/Engine/Rendering/LineBoxMeta.cs:639-645 | a new inline cursor reads its host's storage (or faults without one), and its line starts at its pen |
| Cursors.NewInlineBlockDelegates | Assets/PowerUI/Source/Engine/Rendering/LineBoxMeta.cs:655-660 | a new inline-block is not a flow root and resolves to the same owner and flow state as its host |
| Placement.AddToLine | Assets/PowerUI/Source/Engine/Rendering/LineBoxMeta.cs:173-229 | adding fails only for an out-of-flow box whose pen Y cannot be resolved; only the cursor's lists change, no other cursor changes, and element chains are kept |
| Placement.AddToLineDestination | Assets/PowerUI/Source/Engine/Rendering/LineBoxMeta.cs:179-229 | an out-of-flow box is queued out of flow at the pen plus its margins; a floated box joins the active floats; any other box joins the line, and opens a new line start when the line was empty |
| Placement.AddToLineFirstChild | Assets/PowerUI/Source/Engine/Rendering/LineBoxMeta.cs:198-210 | the first in-flow box ever placed becomes the first child of the parent's current box |
| Placement.AddToLineKeepsBox | Assets/PowerUI/Source/Engine/Rendering/LineBoxMeta.cs:176-177 | the added box has its line links cleared; apart from links and offsets it is unchanged, and an in-flow box keeps its offsets |
| Placement.AddToLineExactlyOnePlace | Assets/PowerUI/Source/Engine/Rendering/LineBoxMeta.cs:179-229 | afterwards the box is in exactly one of the on-line, out-of-flow and active-float lists |
| Placement.AddToLineKeepsLinks | Assets/PowerUI/Source/Engine/Rendering/LineBoxMeta.cs:182-217 | the boxes' next-on-line and next-line-start links still spell out the cursor's lists after an add |
| Placement.QueueOutOfFlowKeepsLinks | Assets/PowerUI/Source/Engine/Rendering/LineBoxMeta.cs:182-186 | appending to the out-of-flow list keeps the link fields in agreement with the lists |
| Placement.ShiftBeforeEffect | Assets/PowerUI/Source/Engine/Rendering/LineBoxMeta.cs:508-520 | the shift walk moves every box before the stop box on the line, and only those |
| Placement.AdvancePen | Assets/PowerUI/Source/Engine/Rendering/LineBoxMeta.cs:458-555 | advancing fails exactly when the flow owner cannot be resolved; it never adds or removes boxes and keeps render data |
| Placement.AdvancePenInFlow | Assets/PowerUI/Source/Engine/Rendering/LineBoxMeta.cs:524-553 | for a box that is not floated, the pen moves by the box's margin-box width, the box lands at the pen (mirrored about the line start when going leftwards), the line height grows to the box's effective height, and nothing else changes |
| Placement.AdvancePenFloatReserves | Assets/PowerUI/Source/Engine/Rendering/LineBoxMeta.cs:460-502 | a float placed at the line start pushes the line start and pen over; one placed at max X lowers max X; lines and line height are untouched |
| Placement.AdvancePenFloatIsReserve | Assets/PowerUI/Source/Engine/Rendering/LineBoxMeta.cs:460-502 | a float's effect on the cursors is the line-start or max-X reservation that its side and the direction select |
| Placement.LeftFloatShiftsEarlierBoxes | Assets/PowerUI/Source/Engine/Rendering/LineBoxMeta.cs:504-522 | a left float pushes the unfloated boxes before it on the line right by its width; floated ones and boxes elsewhere stay put |
| Placement.AdvancePenLineHeightGrows | Assets/PowerUI/Source/Engine/Rendering/LineBoxMeta.cs:529-552 | advancing the pen never lowers the line height |
| Placement.RightToLeftMirrors | Assets/PowerUI/Source/Engine/Rendering/LineBoxMeta.cs:524-553 | the same box advances the pen equally in both directions, and its two offsets add up to twice the line start minus the box width plus (left margin - right margin), so with equal side margins the two placements are reflections about the line start |
| Completion.AlignLine | Assets/PowerUI/Source/Engine/Rendering/LineBoxMeta.cs:238-297 | alignment fails only when boxes are queued and pen Y cannot be resolved; it empties both line lists and leaves every other cursor field alone |
| Completion.AlignLinePlacesBoxes | Assets/PowerUI/Source/Engine/Rendering/LineBoxMeta.cs:245-297 | every on-line box sits on the line's bottom edge less its baseline drop, every out-of-flow box at that edge (an outside-block one also back at the line start), and other boxes are unchanged |
| Completion.ClearFloats | Assets/PowerUI/Source/Engine/Rendering/LineBoxMeta.cs:312-362 | the floats the pen has passed are released; the line start drops and max X grows by exactly the widths of the released floats on each side |
| Completion.AdvanceFlowRoot | Assets/PowerUI/Source/Engine/Rendering/LineBoxMeta.cs:307-366 | a flow root moves pen Y down by the line height and releases passed floats, changing no other cursor or box |
| Completion.ChainFragment | Assets/PowerUI/Source/Engine/Rendering/LineBoxMeta.cs:417-419 | the fragment is linked after the element's last box and becomes the last box; a null render data or last box faults |
| Completion.Wrap | Assets/PowerUI/Source/Engine/Rendering/LineBoxMeta.cs:393-423 | wrapping faults exactly on a null render data or last box, and otherwise adds exactly one box |
| Completion.ResetPen | Assets/PowerUI/Source/Engine/Rendering/LineBoxMeta.cs:441-453 | a line break moves the pen to the line start (an inline cursor first takes its host's line start) and zeroes line height and baseline; an inline cursor without a host faults |
| Completion.PlaceOnParent | Assets/PowerUI/Source/Engine/Rendering/LineBoxMeta.cs:370-391 | placing the element box on the parent fails exactly when the parent's flow owner cannot be resolved, and adds no boxes |
| Completion.CompleteLine | Assets/PowerUI/Source/Engine/Rendering/LineBoxMeta.cs:234-455 | a completed line keeps the arena valid, keeps every cursor's kind and links and the number of render data, and never removes a box |
| Completion.FlowRootIdleLine | Assets/PowerUI/Source/Engine/Rendering/LineBoxMeta.cs:234-455 | completing a line on a flow root with neither break nor top of stack changes nothing |
| Completion.FlowRootCompletesLine | Assets/PowerUI/Source/Engine/Rendering/LineBoxMeta.cs:303-366 | on a flow root, a break or top of stack empties the lines, moves pen Y down by the line height, releases the floats passed, and resets the pen only on a break; every other field of the cursor (its line-start list, current box, font size, CSS line height, largest line width and links) is unchanged |
| Completion.FlowRootPlacesLine | Assets/PowerUI/Source/Engine/Rendering/LineBoxMeta.cs:238-303 | on a flow root, a break or top of stack puts every on-line box on the bottom edge (old pen Y plus line height) less its baseline drop and every out-of-flow box at that edge, and leaves every other box as it was |
| Completion.BreakResetsPen | Assets/PowerUI/Source/Engine/Rendering/LineBoxMeta.cs:441-453 | after a successful break the pen is at the line start, line height and baseline are zero, and an inline cursor's line start is its host's |
| Completion.FloatRoundTrip | Assets/PowerUI/Source/Engine/Rendering/LineBoxMeta.cs:219-366 | a float added, advanced past and then broken over is released, and the reserved room restored, exactly when the new pen Y has reached its bottom; otherwise the reservation stays |
| Completion.FloatReservesOnFlowRoot | Assets/PowerUI/Source/Engine/Rendering/LineBoxMeta.cs:460-502 | among any active floats, queueing a float and advancing past it appends it to the active floats and narrows the edge its side selects by its width, leaving lines, line height and pen Y alone |
| Completion.BreakReleasesReservedFloat | Assets/PowerUI/Source/Engine/Rendering/LineBoxMeta.cs:303-366 | after such a reservation a break releases every passed float in order; the reserving float gives its width back to its edge exactly when the pen has passed it, and the other floats release theirs |
| Completion.BreakSynthesizesFragment | Assets/PowerUI/Source/Engine/Rendering/LineBoxMeta.cs:393-422 | a break on a nested in-flow, non-flow-root element ends with a fresh continuation box, styled after the element box, as the cursor's current box, the last box on the parent's line, and the new last box of the element's render data (the tail of its fragment chain) |
| Completion.WrapSynthesizesFragment | Assets/PowerUI/Source/Engine/Rendering/LineBoxMeta.cs:400-422 | wrapping makes a fresh continuation box the element's current and last box, linked after the old last box, and queued last on the parent's line |
| Completion.OutOfFlowElementSkipsParent | Assets/PowerUI/Source/Engine/Rendering/LineBoxMeta.cs:370-391 | an out-of-flow element's box is sized from the line but the parent is not touched |
| Completion.PlaceOnParentSizesBox | Assets/PowerUI/Source/Engine/Rendering/LineBoxMeta.cs:380-386 | the element box gets inner and content height equal to the line height, and inner and content width equal to the pen's run from the line start |
| Completion.PlaceOnParentRaisesParent | Assets/PowerUI/Source/Engine/Rendering/LineBoxMeta.cs:376-378 | afterwards the parent's line height is at least this line's height and at least what it was |
| Completion.NestedLineSizesBox | Assets/PowerUI/Source/Engine/Rendering/LineBoxMeta.cs:368-391 | completing a nested in-flow line without a break sizes the element box from the line and raises the parent's line height |
| OperatorExpressions.Wrap32 | Assets/PowerUI/Source/JavaScript/Compiler/Expressions/OperatorExpression.cs:167 | C# unchecked `int` arithmetic: in-range values are kept and results agree modulo 2^32 |
| OperatorExpressions.FromOperator | Assets/PowerUI/Source/JavaScript/Compiler/Expressions/OperatorExpression.cs:38-86 | a null operator throws argument-null; the new expression has no operands; unlisted unary and binary operators give unary and binary expressions |
| OperatorExpressions.FromOperatorDispatch | Assets/PowerUI/Source/JavaScript/Compiler/Expressions/OperatorExpression.cs:42-85 | construction succeeds exactly for listed types or arity 1 or 2, and is not-implemented otherwise; index builds a member access, conditional a ternary |
| OperatorExpressions.SetRawOperand | Assets/PowerUI/Source/JavaScript/Compiler/Expressions/OperatorExpression.cs:105-121 | setting a slot changes no operator, count or flag, and an index outside 0..2 changes nothing |
| OperatorExpressions.GetRawOperand | Assets/PowerUI/Source/JavaScript/Compiler/Expressions/OperatorExpression.cs:129-143 | any index other than 1 or 2 reads slot 0 |
| OperatorExpressions.RawOperandReadAfterWrite | Assets/PowerUI/Source/JavaScript/Compiler/Expressions/OperatorExpression.cs:105-143 | reading a slot after setting one gives the new value for that slot and the old value for the others |
| OperatorExpressions.GetOperand | Assets/PowerUI/Source/JavaScript/Compiler/Expressions/OperatorExpression.cs:150-158 | an index below zero or at or above the operand count throws out-of-range, and only then |
| OperatorExpressions.GetOperandUnwrapsOnce | Assets/PowerUI/Source/JavaScript/Compiler/Expressions/OperatorExpression.cs:154-157 | a grouping operand is unwrapped exactly one level; a grouping inside a grouping comes back still grouped |
| OperatorExpressions.Push | Assets/PowerUI/Source/JavaScript/Compiler/Expressions/OperatorExpression.cs:164-168 | the operand goes into the slot at the count, other slots are kept, and the count grows by one with wrap-around |
| OperatorExpressions.Pop | Assets/PowerUI/Source/JavaScript/Compiler/Expressions/OperatorExpression.cs:174-180 | popping from zero operands throws, and only then; otherwise the count drops by one (with wrap-around) and the slot at the dropped count is returned, whatever the count |
| OperatorExpressions.PushPopRoundTrip | Assets/PowerUI/Source/JavaScript/Compiler/Expressions/OperatorExpression.cs:164-180 | a pop after a push succeeds unless the count wrapped to zero, restores the count, and returns the pushed operand when it had a slot |
| OperatorExpressions.PushBeyondSlotsIsLost | Assets/PowerUI/Source/JavaScript/Compiler/Expressions/OperatorExpression.cs:105-143 | a fourth pushed operand is dropped: popping it returns slot 0 and leaves the expression as before |
| OperatorExpressions.Capacity | Assets/PowerUI/Source/JavaScript/Compiler/Expressions/OperatorExpression.cs:199-201 | the operand capacity is between zero and three |
| OperatorExpressions.AcceptingOperands | Assets/PowerUI/Source/JavaScript/Compiler/Expressions/OperatorExpression.cs:193-203 | an expression that accepts operands has fewer than three, and after the second token only an operator with a secondary right operand accepts |
| OperatorExpressions.AcceptingMeansFreeSlot | Assets/PowerUI/Source/JavaScript/Compiler/Expressions/OperatorExpression.cs:193-203 | accepting operands means the count is below the capacity and no missing secondary operand was already reached; then the count is below three |
| OperatorExpressions.AcceptedOperandIsKept | Assets/PowerUI/Source/JavaScript/Compiler/Expressions/OperatorExpression.cs:164-203 | when the count is a slot index, an accepted operand is stored in the slot at the old count, and a pop returns it and restores the count |
| OperatorExpressions.TernaryAcceptsThird | Assets/PowerUI/Source/JavaScript/Compiler/Expressions/OperatorExpression.cs:189-203 | a ternary operator accepts its first two operands at once and a third only after its second token |
| OperatorExpressions.RightBranch | Assets/PowerUI/Source/JavaScript/Compiler/Expressions/OperatorExpression.cs:209-212 | the right branch exists exactly when the last pushed operand is an operator expression, and it is that expression |
| OperatorExpressions.RightBranchIsLastPushed | Assets/PowerUI/Source/JavaScript/Compiler/Expressions/OperatorExpression.cs:164-212 | after pushing an operator expression it is the right branch; after pushing any other node, or null, there is none |
| OperatorExpressions.PrecedenceIgnoresOperands | Assets/PowerUI/Source/JavaScript/Compiler/Expressions/OperatorExpression.cs:218-221 | the precedence depends only on the operator and the second-token flag: pushing or popping operands never changes it |
| Tables.OnComputeBox | Assets/PowerUI/Source/Engine/Tags/table.cs:160-188 | with no column list the free-column width is kept; otherwise free columns times the result is the leftover width when both are positive, else the result is zero |
| Tables.LaidOutWidthSplits | Assets/PowerUI/Source/Engine/Tags/table.cs:167-186 | laying out with a share adds that share once per free column to the set widths |
| Tables.SharedColumnsFillTable | Assets/PowerUI/Source/Engine/Tags/table.cs:181-183 | when the leftover is shared out, the columns exactly fill the table's inner width |
| Forms.Find | Assets/PowerUI/Source/Engine/FormData.cs:48-50 | a missing key gives null; a present key gives the value of an entry with that key |
| Forms.Get | Assets/PowerUI/Source/Engine/FormData.cs:43-51 | a null map or an absent name gives null |
| Forms.GetAgreesWithEveryEntry | Assets/PowerUI/Source/Engine/FormData.cs:48-50 | with distinct keys the indexer returns exactly the value stored under the name |
| Forms.Checked | Assets/PowerUI/Source/Engine/FormData.cs:57-59 | a box is checked if and only if the map exists and holds a non-null, non-empty value under the name |
| Forms.ToUrlString | Assets/PowerUI/Source/Engine/FormData.cs:75-90 | a null map gives ""; otherwise the key=value pairs in iteration order joined by "&" |
| Forms.SplitJoin | Assets/PowerUI/Source/Engine/FormData.cs:82-87 | splitting at the separator undoes the join when no part holds it |
| Forms.UrlStringParses | Assets/PowerUI/Source/Engine/FormData.cs:80-89 | when encoded keys hold neither "&" nor "=" and values hold no "&", the url string splits back into every entry's encoded key and value, in order |
| HtmlAssets.FindHtmlAssets | Assets/PowerUI/Editor/NitroSettings/NitroAOT.cs:71-89 | a null or empty set leaves the list alone; otherwise the html paths, in order and original spelling, are appended, and a null list is created only on the first match |
| HtmlAssets.HtmlPathsMembers | Assets/PowerUI/Editor/NitroSettings/NitroAOT.cs:76-78 | a path is collected if and only if it is in the set and ends in .html or .htm, ignoring case |
| HtmlAssets.HtmlPathsIdempotent | Assets/PowerUI/Editor/NitroSettings/NitroAOT.cs:76-88 | filtering the collected paths again changes nothing |
| HtmlAssets.CollectedComposes | Assets/PowerUI/Editor/NitroSettings/NitroAOT.cs:40-42 | searching one set and then another collects what one search over both would |
| HtmlAssets.AnyCaseExtensionMatches | Assets/PowerUI/Editor/NitroSettings/NitroAOT.cs:77-86 | for every stem, a path ending in `.html` or `.htm` spelled in any mix of cases is collected, in its original spelling |

## Left out

- Floating point: geometry is exact `real`. `float` rounding is not modelled.
  Neither is the `float.MinValue` sentinel, which is an `Option`.
- `FontFace` and its delegation (LineBoxMeta.cs:150-168, 625-633, 737-753).
  It concerns the font subsystem, which is not part of this model.
- `SetDimensions` (LineBoxMeta.cs:382) belongs to `LayoutBox`, which is not
  part of this model. It is taken to change none of the modelled fields.
- `LayoutBox`'s derived sizes (`TotalWidth`, `TotalHeight`, `InnerHeight`) are
  inputs of the box record. They are not computed from the box's style.
- The empty inline-block branch (LineBoxMeta.cs:424-435) does nothing in the
  code, so the model does nothing there.
- Recursion depth: owner resolution and `CompleteLine`'s walk up the parents
  take a fuel bound equal to the number of cursors. A cycle of host or parent
  references, where the C# code recurses without end, is the
  `EndlessRecursion` fault.
- `BoxStyle` (border, padding, margin) is taken to be a value type, so the
  copies at LineBoxMeta.cs:403-408 are values.
- `GroupingExpression.Operand` is taken to be slot 0 of the grouping
  expression. GroupingExpression.cs is not part of this model.
- The subclasses `FromOperator` builds differ only by an `ExpressionKind` tag.
  Their own behaviour is not part of this model.
- Operator types that `FromOperator` does not name are collapsed into one
  `Plain` case.
- `ChildNodes` and the other members of `OperatorExpression` below line 222
  concern tree walking, not the operand stack.
- `Dictionary` iteration order is taken to be the order of the entry
  sequence. A null name passed to the indexer (an `ArgumentNullException`
  in the dictionary) is not modelled.
- `Web.UrlEncode` is an uninterpreted function parameter of `ToUrlString`.
- `FormData.ToUnityForm` builds a Unity `WWWForm`, which is engine I/O.
- `ToLower` is culture-sensitive in C#. It is modelled as ASCII lowercasing.
- A null entry inside the file set is not modelled. In the code it would
  throw a `NullReferenceException`.
- The rest of `NitroAOT` is left out because it is file and editor I/O. That
  covers `OnPostprocessAllAssets`, `Compile`, `DeleteAll` and the AOT file hooks.
- Tables.OnComputeBox: the `renderer`, `widthUndefined` and `heightUndefined`
  parameters are unused by the code and are left out. So are the other
  handlers in table.cs that drive the HTML tree builder, which are parsing.
- Completion.CompleteLine: its own contract states only what every completion
  keeps (validity and the shape of the arena). What it does on each path is
  stated by `FlowRootIdleLine`, `FlowRootCompletesLine`, `FlowRootPlacesLine`,
  `BreakResetsPen`, `BreakReleasesReservedFloat`, `NestedLineSizesBox` and
  `BreakSynthesizesFragment`.
- OperatorExpressions.Capacity: states only the range of the capacity. The
  meaning of the capacity is stated by `AcceptingMeansFreeSlot` and
  `TernaryAcceptsThird`.
