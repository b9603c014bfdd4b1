/** The mutable operator expression the JavaScript compiler's parser builds
    (`OperatorExpression`): an operator, up to three operand slots, an operand
    count and the ternary "second token seen" flag. The C# object is mutated in
    place; here every mutator returns the updated value. */
module OperatorExpressions {
  import opened Wrappers

  /** C#'s `int`. */
  type Int32 = x: int | -0x8000_0000 <= x < 0x8000_0000

  /** Two's-complement wrap-around of an unchecked C# `int` operation. */
  function Wrap32(x: int): (r: Int32)
    ensures -0x8000_0000 <= x < 0x8000_0000 ==> r == x
    ensures (r - x) % 0x1_0000_0000 == 0
  {
    (x + 0x8000_0000) % 0x1_0000_0000 - 0x8000_0000
  }

  /** The operator types `FromOperator` dispatches on by name; every other
      member of the C# enum (arithmetic, logical, relational, ...) is `Plain`,
      carrying a tag to tell them apart. */
  datatype OperatorType =
    | Grouping | FunctionCall | MemberAccess | Index | New
    | PostIncrement | PostDecrement | PreIncrement | PreDecrement
    | Assignment | CompoundAdd | CompoundBitwiseAnd | CompoundBitwiseOr | CompoundBitwiseXor
    | CompoundDivide | CompoundLeftShift | CompoundModulo | CompoundMultiply
    | CompoundSignedRightShift | CompoundSubtract | CompoundUnsignedRightShift
    | Conditional | Comma
    | Plain(tag: nat)

  /** The members of the `Operator` class the expression reads. */
  datatype Operator = Operator(
    opType: OperatorType,
    arity: Int32,
    hasLhsOperand: bool,
    hasRhsOperand: bool,
    hasSecondaryRhsOperand: bool,
    secondaryPrecedence: Int32,
    tertiaryPrecedence: Int32)

  /** The concrete subclass `FromOperator` instantiates. */
  datatype ExpressionKind =
    | GroupingKind | FunctionCallKind | MemberAccessKind | NewKind | AssignmentKind
    | TernaryKind | ListKind | UnaryKind | BinaryKind

  /** An expression node: an operator expression, or any other node (literal,
      name, ...), which the operand stack only stores and compares by kind. */
  datatype Expression =
    | OtherNode(tag: nat)
    | OpNode(op: OperatorExpression)

  /** `null` slots are `None`. */
  datatype OperatorExpression = OperatorExpression(
    kind: ExpressionKind,
    operator: Operator,
    operandCount: Int32,
    operand0: Option<Expression>,
    operand1: Option<Expression>,
    operand2: Option<Expression>,
    secondTokenEncountered: bool)

  datatype Fault = ArgumentNull | NotImplemented | ArgumentOutOfRange | NotEnoughOperands

  // ---------------------------------------------------------------------------
  // Construction.
  // ---------------------------------------------------------------------------

  /** The subclass an operator type names explicitly, if any. */
  function ListedKind(t: OperatorType): Option<ExpressionKind>
  {
    match t
    case Grouping => Some(GroupingKind)
    case FunctionCall => Some(FunctionCallKind)
    case MemberAccess | Index => Some(MemberAccessKind)
    case New => Some(NewKind)
    case PostIncrement | PostDecrement | PreIncrement | PreDecrement
       | Assignment | CompoundAdd | CompoundBitwiseAnd | CompoundBitwiseOr | CompoundBitwiseXor
       | CompoundDivide | CompoundLeftShift | CompoundModulo | CompoundMultiply
       | CompoundSignedRightShift | CompoundSubtract | CompoundUnsignedRightShift => Some(AssignmentKind)
    case Conditional => Some(TernaryKind)
    case Comma => Some(ListKind)
    case Plain(_) => None
  }

  /** A new expression of the given subclass: no operands, second token unseen. */
  function NewExpression(kind: ExpressionKind, op: Operator): (e: OperatorExpression)
    ensures e.kind == kind && e.operator == op && e.operandCount == 0 && !e.secondTokenEncountered
    ensures e.operand0 == None && e.operand1 == None && e.operand2 == None
  {
    OperatorExpression(kind, op, 0, None, None, None, false)
  }

  /** `FromOperator`: a null operator faults; a named operator type picks its
      subclass; otherwise arity 1 makes a unary and arity 2 a binary expression,
      and any other arity faults. */
  function FromOperator(op: Option<Operator>): (r: Result<OperatorExpression, Fault>)
    ensures op.None? <==> r == Failure(ArgumentNull)
    ensures r.Success? ==> r.value == NewExpression(r.value.kind, op.value)
    ensures r.Success? && op.value.arity == 1 && ListedKind(op.value.opType).None? ==> r.value.kind == UnaryKind
    ensures r.Success? && op.value.arity == 2 && ListedKind(op.value.opType).None? ==> r.value.kind == BinaryKind
  {
    if op.None? then Failure(ArgumentNull)
    else
      var o := op.value;
      match ListedKind(o.opType)
      case Some(kind) => Success(NewExpression(kind, o))
      case None =>
        if o.arity == 1 then Success(NewExpression(UnaryKind, o))
        else if o.arity == 2 then Success(NewExpression(BinaryKind, o))
        else Failure(NotImplemented)
  }

  /** A non-null operator builds an expression exactly when its type is named
      or its arity is 1 or 2, and a named type decides the subclass whatever the
      arity. */
  lemma FromOperatorDispatch(o: Operator)
    ensures FromOperator(Some(o)).Success? <==> ListedKind(o.opType).Some? || o.arity == 1 || o.arity == 2
    ensures FromOperator(Some(o)) == Failure(NotImplemented) <==>
              ListedKind(o.opType).None? && o.arity != 1 && o.arity != 2
    ensures ListedKind(o.opType).Some? ==> FromOperator(Some(o)).value.kind == ListedKind(o.opType).value
    ensures o.opType == Index ==> FromOperator(Some(o)).value.kind == MemberAccessKind
    ensures o.opType == Conditional ==> FromOperator(Some(o)).value.kind == TernaryKind
  {
  }

  // ---------------------------------------------------------------------------
  // Operand slots.
  // ---------------------------------------------------------------------------

  /** `SetRawOperand`: slots 0, 1 and 2 exist; any other index changes nothing. */
  function SetRawOperand(e: OperatorExpression, index: Int32, value: Option<Expression>): (e': OperatorExpression)
    ensures e'.kind == e.kind && e'.operator == e.operator && e'.operandCount == e.operandCount
    ensures e'.secondTokenEncountered == e.secondTokenEncountered
    ensures !(0 <= index <= 2) ==> e' == e
  {
    match index
    case 0 => e.(operand0 := value)
    case 1 => e.(operand1 := value)
    case 2 => e.(operand2 := value)
    case _ => e
  }

  /** `GetRawOperand`: slots 1 and 2 by index; every other index reads slot 0. */
  function GetRawOperand(e: OperatorExpression, index: Int32): (r: Option<Expression>)
    ensures index != 1 && index != 2 ==> r == e.operand0
  {
    match index
    case 1 => e.operand1
    case 2 => e.operand2
    case _ => e.operand0
  }

  /** The three slots behave as an array of three: a write is read back at its
      index and leaves the other two slots alone. */
  lemma RawOperandReadAfterWrite(e: OperatorExpression, i: Int32, j: Int32, value: Option<Expression>)
    requires 0 <= i <= 2 && 0 <= j <= 2
    ensures GetRawOperand(SetRawOperand(e, i, value), j) == if i == j then value else GetRawOperand(e, j)
  {
  }

  /** The operand that a grouping expression wraps: its first slot. */
  function GroupedOperand(g: OperatorExpression): Option<Expression>
    requires g.kind == GroupingKind
  {
    g.operand0
  }

  /** Exactly one grouping layer is removed from an operand. */
  function Ungroup(x: Option<Expression>): (r: Option<Expression>)
    ensures !(x.Some? && x.value.OpNode? && x.value.op.kind == GroupingKind) ==> r == x
  {
    if x.Some? && x.value.OpNode? && x.value.op.kind == GroupingKind then GroupedOperand(x.value.op) else x
  }

  /** `GetOperand`: an index outside `[0, OperandCount)` faults; otherwise the
      raw operand, with one grouping layer removed. */
  function GetOperand(e: OperatorExpression, index: Int32): (r: Result<Option<Expression>, Fault>)
    ensures r.Failure? <==> index < 0 || index >= e.operandCount
    ensures r.Failure? ==> r.error == ArgumentOutOfRange
  {
    if index < 0 || index >= e.operandCount then Failure(ArgumentOutOfRange)
    else Success(Ungroup(GetRawOperand(e, index)))
  }

  /** Reading a pushed grouping operand yields what it wraps, and a grouping
      nested inside it stays wrapped. */
  lemma GetOperandUnwrapsOnce(e: OperatorExpression, index: Int32, g: OperatorExpression)
    requires 0 <= index < e.operandCount && 0 <= index <= 2
    requires GetRawOperand(e, index) == Some(OpNode(g)) && g.kind == GroupingKind
    ensures GetOperand(e, index) == Success(g.operand0)
    ensures g.operand0.Some? && g.operand0.value.OpNode? && g.operand0.value.op.kind == GroupingKind ==>
              GetOperand(e, index).value.value.op.kind == GroupingKind
  {
  }

  // ---------------------------------------------------------------------------
  // The operand stack.
  // ---------------------------------------------------------------------------

  /** `Push`: the operand goes into slot `OperandCount` (if that slot exists)
      and the count grows by one, wrapping at `int.MaxValue`. */
  function Push(e: OperatorExpression, x: Option<Expression>): (e': OperatorExpression)
    ensures e'.operandCount == Wrap32(e.operandCount + 1)
    ensures 0 <= e.operandCount <= 2 ==> GetRawOperand(e', e.operandCount) == x
    ensures forall j: Int32 :: 0 <= j <= 2 && j != e.operandCount ==> GetRawOperand(e', j) == GetRawOperand(e, j)
    ensures e'.kind == e.kind && e'.operator == e.operator && e'.secondTokenEncountered == e.secondTokenEncountered
  {
    var stored := SetRawOperand(e, e.operandCount, x);
    stored.(operandCount := Wrap32(e.operandCount + 1))
  }

  /** `Pop`: with no operands it faults; otherwise the count drops by one
      (wrapping at `int.MinValue`) and the slot at the new count is returned. */
  function Pop(e: OperatorExpression): (r: Result<(OperatorExpression, Option<Expression>), Fault>)
    ensures r.Failure? <==> e.operandCount == 0
    ensures r.Failure? ==> r.error == NotEnoughOperands
    ensures r.Success? ==> r.value.0 == e.(operandCount := Wrap32(e.operandCount - 1))
    ensures r.Success? ==> r.value.1 == GetRawOperand(e, Wrap32(e.operandCount - 1))
  {
    if e.operandCount == 0 then Failure(NotEnoughOperands)
    else
      var e' := e.(operandCount := Wrap32(e.operandCount - 1));
      Success((e', GetRawOperand(e', e'.operandCount)))
  }

  /** Push then pop: while a slot is free the pushed operand comes back and the
      expression is as before except for the overwritten slot; at any count but
      -1 the count is restored. */
  lemma PushPopRoundTrip(e: OperatorExpression, x: Option<Expression>)
    ensures e.operandCount != -1 <==> Pop(Push(e, x)).Success?
    ensures e.operandCount != -1 ==> Pop(Push(e, x)).value.0.operandCount == e.operandCount
    ensures 0 <= e.operandCount <= 2 ==>
              && Pop(Push(e, x)).value.1 == x
              && Pop(Push(e, x)).value.0 == SetRawOperand(e, e.operandCount, x)
  {
    if e.operandCount == 0x7FFF_FFFF {
      assert Wrap32(e.operandCount + 1) == -0x8000_0000;
      assert Wrap32(-0x8000_0000 - 1) == 0x7FFF_FFFF;
    }
  }

  /** Once the three slots are full a push is lost: popping it back yields the
      first slot. */
  lemma PushBeyondSlotsIsLost(e: OperatorExpression, x: Option<Expression>)
    requires e.operandCount == 3
    ensures Pop(Push(e, x)) == Success((e, e.operand0))
  {
  }

  // ---------------------------------------------------------------------------
  // Parser queries.
  // ---------------------------------------------------------------------------

  function Count(b: bool): int
  {
    if b then 1 else 0
  }

  /** How many operands the operator takes in the current parse state. */
  function Capacity(e: OperatorExpression): (n: int)
    ensures 0 <= n <= 3
  {
    Count(e.operator.hasLhsOperand) + Count(e.operator.hasRhsOperand)
      + Count(e.operator.hasSecondaryRhsOperand && e.secondTokenEncountered)
  }

  /** `AcceptingOperands`: never once the second token was seen by an operator
      without a secondary right operand; otherwise while fewer operands than the
      current capacity have been pushed. */
  function AcceptingOperands(e: OperatorExpression): (b: bool)
    ensures b ==> e.operandCount < 3
    ensures b && e.secondTokenEncountered ==> e.operator.hasSecondaryRhsOperand
  {
    if e.secondTokenEncountered && !e.operator.hasSecondaryRhsOperand then false
    else e.operandCount < Capacity(e)
  }

  /** An expression accepting operands holds fewer than three of them, and at
      three operands nothing more is accepted. A wrapped negative count also
      accepts, although no slot then takes the operand. */
  lemma AcceptingMeansFreeSlot(e: OperatorExpression)
    ensures AcceptingOperands(e) ==> e.operandCount < 3
    ensures e.operandCount >= 3 ==> !AcceptingOperands(e)
    ensures AcceptingOperands(e) <==>
              e.operandCount < Capacity(e) && (e.secondTokenEncountered ==> e.operator.hasSecondaryRhsOperand)
  {
  }

  /** Where the count is a slot index, an accepted operand is kept: pushing it
      stores it in the slot at the old count, and popping gives it back. */
  lemma AcceptedOperandIsKept(e: OperatorExpression, x: Option<Expression>)
    ensures AcceptingOperands(e) && 0 <= e.operandCount ==>
              && e.operandCount <= 2
              && GetRawOperand(Push(e, x), e.operandCount) == x
              && Pop(Push(e, x)) == Success((Push(e, x).(operandCount := e.operandCount), x))
  {
  }

  /** A ternary operator accepts two operands before its second token and a
      third one after it. */
  lemma TernaryAcceptsThird(e: OperatorExpression)
    requires e.operator.hasLhsOperand && e.operator.hasRhsOperand && e.operator.hasSecondaryRhsOperand
    ensures e.operandCount == 2 ==> (AcceptingOperands(e) <==> e.secondTokenEncountered)
    ensures 0 <= e.operandCount < 2 ==> AcceptingOperands(e)
  {
  }

  /** `RightBranch`: none without operands; otherwise the last raw operand when
      it is an operator expression, else none. */
  function RightBranch(e: OperatorExpression): (r: Option<OperatorExpression>)
    ensures r.Some? ==> e.operandCount != 0
    ensures r.Some? <==> e.operandCount != 0 && GetRawOperand(e, Wrap32(e.operandCount - 1)).Some?
                         && GetRawOperand(e, Wrap32(e.operandCount - 1)).value.OpNode?
    ensures r.Some? ==> GetRawOperand(e, Wrap32(e.operandCount - 1)) == Some(OpNode(r.value))
  {
    if e.operandCount == 0 then None
    else
      match GetRawOperand(e, Wrap32(e.operandCount - 1))
      case Some(OpNode(op)) => Some(op)
      case _ => None
  }

  /** The right branch of an expression is the operator expression last pushed
      onto it. */
  lemma RightBranchIsLastPushed(e: OperatorExpression, op: OperatorExpression)
    requires 0 <= e.operandCount <= 2
    ensures RightBranch(Push(e, Some(OpNode(op)))) == Some(op)
    ensures forall t: nat :: RightBranch(Push(e, Some(OtherNode(t)))) == None
    ensures RightBranch(Push(e, None)) == None
  {
  }

  /** `Precedence`: the operator's secondary precedence until the second token
      is seen, its tertiary precedence after. */
  function Precedence(e: OperatorExpression): Int32
  {
    if !e.secondTokenEncountered then e.operator.secondaryPrecedence else e.operator.tertiaryPrecedence
  }

  /** Precedence depends on the operator and the parse state only: pushing or
      popping operands never changes it. */
  lemma PrecedenceIgnoresOperands(e: OperatorExpression, x: Option<Expression>)
    ensures Precedence(Push(e, x)) == Precedence(e)
    ensures Pop(e).Success? ==> Precedence(Pop(e).value.0) == Precedence(e)
  {
  }
}
