/** The free-column width of a table (`HtmlTableElement.OnComputeBox`): columns
    without a width share the table's leftover inner width evenly. */
module Tables {
  import opened Wrappers

  /** One entry of `ColumnWidths`: the pixel width of the column's widest
      style, or `None` (a null entry) when the column has no set width. */
  type Column = Option<real>

  /** How many columns have no set width. */
  function NullCount(cols: seq<Column>): (n: nat)
    ensures n <= |cols|
  {
    if cols == [] then 0 else NullCount(cols[..|cols| - 1]) + (if cols[|cols| - 1].None? then 1 else 0)
  }

  /** The total pixel width of the columns that have one. */
  function WidthSum(cols: seq<Column>): real
  {
    if cols == [] then 0.0
    else WidthSum(cols[..|cols| - 1]) + (if cols[|cols| - 1].Some? then cols[|cols| - 1].value else 0.0)
  }

  /** The table's total width once every free column is `share` wide. */
  function LaidOutWidth(cols: seq<Column>, share: real): real
  {
    if cols == [] then 0.0
    else LaidOutWidth(cols[..|cols| - 1], share) + (if cols[|cols| - 1].Some? then cols[|cols| - 1].value else share)
  }

  /** `OnComputeBox`: with no `ColumnWidths` the free-column width is left as it
      was; otherwise the leftover width (inner width less the set widths) is
      split evenly among the free columns when both are positive, and the
      free-column width is zero otherwise. */
  method OnComputeBox(columnWidths: Option<seq<Column>>, innerWidth: real, noWidthPixels: real)
    returns (r: real)
    ensures columnWidths.None? ==> r == noWidthPixels
    ensures columnWidths.Some? ==>
              var cols := columnWidths.value;
              var spaceLeft := innerWidth - WidthSum(cols);
              var noWidth := NullCount(cols);
              && (spaceLeft > 0.0 && noWidth > 0 ==> r * (noWidth as real) == spaceLeft)
              && (!(spaceLeft > 0.0 && noWidth > 0) ==> r == 0.0)
              && r >= 0.0
  {
    if columnWidths.None? {
      return noWidthPixels;
    }
    var cols := columnWidths.value;
    var noWidth: real := 0.0;
    var spaceLeft := innerWidth;
    var i := 0;
    while i < |cols|
      invariant 0 <= i <= |cols|
      invariant noWidth == NullCount(cols[..i]) as real
      invariant spaceLeft == innerWidth - WidthSum(cols[..i])
    {
      ColumnsStep(cols, i);
      if cols[i].None? {
        noWidth := noWidth + 1.0;
      } else {
        spaceLeft := spaceLeft - cols[i].value;
      }
      i := i + 1;
    }
    assert cols[..i] == cols;
    if spaceLeft > 0.0 && noWidth > 0.0 {
      r := spaceLeft / noWidth;
      EvenShare(spaceLeft, noWidth);
    } else {
      r := 0.0;
    }
  }

  /** One more column adds at most one free column and at most one width. */
  lemma ColumnsStep(cols: seq<Column>, i: nat)
    requires i < |cols|
    ensures NullCount(cols[..i + 1]) == NullCount(cols[..i]) + (if cols[i].None? then 1 else 0)
    ensures WidthSum(cols[..i + 1]) == WidthSum(cols[..i]) + (if cols[i].Some? then cols[i].value else 0.0)
  {
    assert cols[..i + 1][..i] == cols[..i];
  }

  /** Dividing a positive amount into `n > 0` parts: the parts are positive and
      `n` of them make the whole. */
  lemma EvenShare(amount: real, n: real)
    requires amount > 0.0 && n > 0.0
    ensures (amount / n) * n == amount && amount / n > 0.0
  {
  }

  /** Laying out with a share adds that share once per free column to the set
      widths. */
  lemma {:induction false} LaidOutWidthSplits(cols: seq<Column>, share: real)
    ensures LaidOutWidth(cols, share) == WidthSum(cols) + share * (NullCount(cols) as real)
  {
    if cols != [] {
      LaidOutWidthSplits(cols[..|cols| - 1], share);
    }
  }

  /** When the leftover is shared out, the columns exactly fill the table's
      inner width. */
  lemma SharedColumnsFillTable(cols: seq<Column>, innerWidth: real, share: real)
    requires innerWidth - WidthSum(cols) > 0.0 && NullCount(cols) > 0
    requires share * (NullCount(cols) as real) == innerWidth - WidthSum(cols)
    ensures LaidOutWidth(cols, share) == innerWidth
  {
    LaidOutWidthSplits(cols, share);
  }
}
