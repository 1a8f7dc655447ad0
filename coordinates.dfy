/**
 * The coordinate translator: the deck addresses a button by (page, button index),
 * the Material Deck plugin by one flat integer "context", and the plugin's payloads
 * carry the button's (column, row) on the 8 x 4 grid.
 */
module Coordinates {

  const Columns: int := 8
  const Rows: int := 4
  /** Buttons on one page. */
  const PageSize: int := Columns * Rows

  function ToContext(buttonIndex: int, page: int): int {
    buttonIndex + page * Columns * Rows
  }

  function ToButtonIndex(context: int, page: int): int {
    context - page * Columns * Rows
  }

  /** `int(context / 32)`: a float quotient truncated toward zero, so negative contexts round up. */
  function ToPage(context: int): int {
    if context >= 0 then context / PageSize else -((-context) / PageSize)
  }

  /** `button_index % 8` (Python's `%` with a positive divisor is never negative). */
  function Column(buttonIndex: int): int {
    buttonIndex % Columns
  }

  /** `math.floor(button_index / 8)`. */
  function Row(buttonIndex: int): int {
    buttonIndex / Columns
  }

  /** Going to a context and back with the same page gives the button index back, for every integer. */
  lemma IndexRoundTrip(buttonIndex: int, page: int)
    ensures ToButtonIndex(ToContext(buttonIndex, page), page) == buttonIndex
  {
  }

  /**
   * A button index on the page recovers its page from the context. For a negative page the
   * truncating division lands one page too high (unless the index is 0).
   */
  lemma PageRoundTrip(buttonIndex: int, page: int)
    requires 0 <= buttonIndex < PageSize
    ensures page >= 0 ==> ToPage(ToContext(buttonIndex, page)) == page
    ensures page < 0 && buttonIndex > 0 ==> ToPage(ToContext(buttonIndex, page)) == page + 1
  {
    var c := ToContext(buttonIndex, page);
    if page >= 0 {
      assert c == page * PageSize + buttonIndex;
      DivUnique(c, page, buttonIndex);
    } else if buttonIndex > 0 {
      assert -c == (-page - 1) * PageSize + (PageSize - buttonIndex);
      DivUnique(-c, -page - 1, PageSize - buttonIndex);
    }
  }

  /** Euclidean division by the page size is determined by any quotient/remainder split. */
  lemma DivUnique(n: int, q: int, r: int)
    requires 0 <= r < PageSize && n == q * PageSize + r
    ensures n / PageSize == q && n % PageSize == r
  {
  }

  /**
   * Every context splits into the page `ToPage` names and a button index on it, and the
   * split goes back to the same context. A non-negative context lands on a real button of a
   * non-negative page; a negative one lands on page 0 or below with an index in (-32, 0].
   */
  lemma ContextSplit(context: int)
    ensures ToContext(ToButtonIndex(context, ToPage(context)), ToPage(context)) == context
    ensures context >= 0 ==> ToPage(context) >= 0 && 0 <= ToButtonIndex(context, ToPage(context)) < PageSize
    ensures context < 0 ==> ToPage(context) <= 0 && -PageSize < ToButtonIndex(context, ToPage(context)) <= 0
  {
    var p := ToPage(context);
    if context >= 0 {
      assert context == p * PageSize + context % PageSize;
    } else {
      assert -context == (-p) * PageSize + (-context) % PageSize;
    }
  }

  /** The grid position of a button: a column on the grid, the row it sits on, and back. */
  lemma GridPosition(buttonIndex: int)
    ensures 0 <= Column(buttonIndex) < Columns
    ensures Row(buttonIndex) * Columns + Column(buttonIndex) == buttonIndex
    ensures 0 <= buttonIndex < PageSize ==> 0 <= Row(buttonIndex) < Rows
    ensures Row(buttonIndex) >= 0 <==> buttonIndex >= 0
  {
  }

  /** Two different button indices never share a grid position. */
  lemma GridInjective(i: int, j: int)
    requires i != j
    ensures Column(i) != Column(j) || Row(i) != Row(j)
  {
    GridPosition(i);
    GridPosition(j);
  }
}
