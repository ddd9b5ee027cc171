/**
  * The shape of the price/quantity cross-tabulation and the two orders in
  * which the store's displays walk it: row-major (outer loop over price
  * ranges) and column-major (outer loop over quantity ranges).
  */
module PriceQuantityTable {

  /** Number of price ranges: the rows of the table. */
  const PriceCategories: int := 5

  /** Number of quantity ranges: the columns of the table. */
  const QtyCategories: int := 4

  /** Number of cells in the table. */
  const CellCount: int := PriceCategories * QtyCategories

  /** A (price range, quantity range) position in the table. */
  datatype Cell = Cell(priceRange: int, qtyRange: int)

  /** One step of a display: the cell it visited and the value it read there. */
  datatype Visit = Visit(cell: Cell, value: real)

  predicate InTable(c: Cell) {
    0 <= c.priceRange < PriceCategories && 0 <= c.qtyRange < QtyCategories
  }

  /** The cells in the order the row-major display visits them. */
  function RowMajorOrder(): (o: seq<Cell>)
    ensures |o| == CellCount
  {
    seq(CellCount, k => Cell(k / QtyCategories, k % QtyCategories))
  }

  /** The cells in the order the column-major display visits them. */
  function ColumnMajorOrder(): (o: seq<Cell>)
    ensures |o| == CellCount
  {
    seq(CellCount, k => Cell(k % PriceCategories, k / PriceCategories))
  }

  /**
    * The row-major walk stays inside the table and visits each cell exactly
    * once, as step `priceRange * QtyCategories + qtyRange`.
    */
  lemma RowMajorVisitsEachCellOnce(c: Cell)
    ensures c in RowMajorOrder() <==> InTable(c)
    ensures InTable(c) ==> forall k :: 0 <= k < CellCount ==>
              (RowMajorOrder()[k] == c <==> k == c.priceRange * QtyCategories + c.qtyRange)
  {
    var o := RowMajorOrder();
    forall k | 0 <= k < CellCount ensures InTable(o[k]) {
      assert o[k] == Cell(k / QtyCategories, k % QtyCategories);
    }
    if InTable(c) {
      var k := c.priceRange * QtyCategories + c.qtyRange;
      assert o[k] == c;
    }
  }

  /**
    * The column-major walk stays inside the table and visits each cell exactly
    * once, as step `qtyRange * PriceCategories + priceRange`.
    */
  lemma ColumnMajorVisitsEachCellOnce(c: Cell)
    ensures c in ColumnMajorOrder() <==> InTable(c)
    ensures InTable(c) ==> forall k :: 0 <= k < CellCount ==>
              (ColumnMajorOrder()[k] == c <==> k == c.qtyRange * PriceCategories + c.priceRange)
  {
    var o := ColumnMajorOrder();
    forall k | 0 <= k < CellCount ensures InTable(o[k]) {
      assert o[k] == Cell(k % PriceCategories, k / PriceCategories);
    }
    if InTable(c) {
      var k := c.qtyRange * PriceCategories + c.priceRange;
      assert o[k] == c;
    }
  }

  /**
    * The two walks are permutations of one another: step `k` of the
    * column-major walk is step `Transposed(k)` of the row-major walk, and
    * `Transposed` is a bijection on the steps.
    */
  function Transposed(k: int): (t: int)
    requires 0 <= k < CellCount
    ensures 0 <= t < CellCount
    ensures ColumnMajorOrder()[k] == RowMajorOrder()[t]
  {
    (k % PriceCategories) * QtyCategories + k / PriceCategories
  }

  /**
    * `Transposed` is a bijection on the steps: the row-major step `t` is
    * reached from exactly one column-major step.
    */
  lemma TransposedIsBijective(k: int, t: int)
    requires 0 <= k < CellCount && 0 <= t < CellCount
    ensures Transposed(k) == t <==> k == (t % QtyCategories) * PriceCategories + t / QtyCategories
  {
  }
}
