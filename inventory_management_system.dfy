/**
  * The fixed-capacity inventory store: an array of at most `MaxItems` product
  * records with its live count, the price/quantity table, and the parallel
  * arrays of rarely restocked items with their own count.
  */
module InventoryManagement {
  import opened Wrappers
  import opened InventoryItems
  import opened PriceQuantityTable

  /** Capacity of the item array and of the rare-item arrays. */
  const MaxItems: int := 100

  /** An entry of the rarely-restocked list. */
  datatype RareItem = RareItem(itemId: int, restockFreq: int)

  /**
    * The deletion loop: moves each of the records after slot `k` of the first
    * `n` slots of `a` down one slot, so that the first `n - 1` slots hold the
    * old first `n` without the one at `k`.
    */
  method ShiftDown(a: array<Item>, k: nat, n: nat)
    requires k < n <= a.Length
    modifies a
    ensures a[..n - 1] == RemoveAt(old(a[..n]), k)
    ensures a[n - 1..] == old(a[n - 1..])
  {
    var i := k;
    while i < n - 1
      invariant k <= i <= n - 1
      invariant forall j :: 0 <= j < k ==> a[j] == old(a[j])
      invariant forall j :: k <= j < i ==> a[j] == old(a[j + 1])
      invariant forall j :: i <= j < a.Length ==> a[j] == old(a[j])
    {
      a[i] := a[i + 1];
      i := i + 1;
    }
    ShiftedDownIsRemoveAt(old(a[..n]), a[..], k);
  }

  class InventoryManagementSystem {
    const itemArray: array<Item>
    var currentItemCount: nat

    const priceQuantityTable: array2<real>

    const rareItems: array<int>
    const rareFreq: array<int>
    var rareCount: nat

    /** The store's invariant: fixed dimensions, counts within capacity, distinct live ids. */
    ghost predicate Valid()
      reads this, itemArray
    {
      itemArray.Length == MaxItems && currentItemCount <= MaxItems &&
      priceQuantityTable.Length0 == PriceCategories &&
      priceQuantityTable.Length1 == QtyCategories &&
      rareItems.Length == MaxItems && rareFreq.Length == MaxItems &&
      rareItems != rareFreq && rareCount <= MaxItems &&
      DistinctIds(itemArray[..currentItemCount])
    }

    /** The live items, in insertion order. */
    ghost function Items(): (s: seq<Item>)
      reads this, itemArray
      requires Valid()
      ensures |s| == currentItemCount
    {
      itemArray[..currentItemCount]
    }

    /** The rarely-restocked list, pairing the two parallel arrays index by index. */
    ghost function RareList(): (s: seq<RareItem>)
      reads this, rareItems, rareFreq
      requires rareCount <= rareItems.Length && rareCount <= rareFreq.Length
      ensures |s| == rareCount
    {
      var n := rareCount;
      seq(n, i reads rareItems, rareFreq
               requires 0 <= i < n && i < rareItems.Length && i < rareFreq.Length
               => RareItem(rareItems[i], rareFreq[i]))
    }

    /** The value stored in cell `c` of the table. */
    ghost function TableAt(c: Cell): real
      reads this, priceQuantityTable
      requires priceQuantityTable.Length0 == PriceCategories
      requires priceQuantityTable.Length1 == QtyCategories
      requires InTable(c)
    {
      priceQuantityTable[c.priceRange, c.qtyRange]
    }

    /** An empty store whose table holds 0 in every cell. */
    constructor ()
      ensures Valid()
      ensures Items() == [] && RareList() == []
      ensures forall c :: InTable(c) ==> TableAt(c) == 0.0
      ensures fresh(itemArray) && fresh(priceQuantityTable) && fresh(rareItems) && fresh(rareFreq)
    {
      itemArray := new Item[MaxItems](_ => DefaultItem);
      priceQuantityTable := new real[PriceCategories, QtyCategories];
      rareItems := new int[MaxItems];
      rareFreq := new int[MaxItems];
      currentItemCount := 0;
      rareCount := 0;
      new;
      InitializePriceQuantityTable();
    }

    /** Sets every cell of the table to 0. */
    method InitializePriceQuantityTable()
      requires Valid()
      modifies priceQuantityTable
      ensures Valid()
      ensures forall c :: InTable(c) ==> TableAt(c) == 0.0
    {
      var priceRange := 0;
      while priceRange < PriceCategories
        invariant 0 <= priceRange <= PriceCategories
        invariant forall r, q :: 0 <= r < priceRange && 0 <= q < QtyCategories ==>
                    priceQuantityTable[r, q] == 0.0
      {
        var qtyRange := 0;
        while qtyRange < QtyCategories
          invariant 0 <= qtyRange <= QtyCategories
          invariant forall r, q :: 0 <= r < priceRange && 0 <= q < QtyCategories ==>
                      priceQuantityTable[r, q] == 0.0
          invariant forall q :: 0 <= q < qtyRange ==> priceQuantityTable[priceRange, q] == 0.0
        {
          priceQuantityTable[priceRange, qtyRange] := 0.0;
          qtyRange := qtyRange + 1;
        }
        priceRange := priceRange + 1;
      }
    }

    /** The index of the live item with id `targetId`, or -1 when there is none. */
    method FindItemIndex(targetId: int) returns (index: int)
      requires Valid()
      ensures index == FirstIndex(Items(), ById(targetId))
      ensures index == -1 <==> !HasId(Items(), targetId)
      ensures 0 <= index ==> index < currentItemCount && itemArray[index].itemId == targetId
    {
      FirstIndexAbsent(Items(), targetId);
      var i := 0;
      while i < currentItemCount
        invariant 0 <= i <= currentItemCount
        invariant forall j :: 0 <= j < i ==> !Matches(Items()[j], ById(targetId))
      {
        if itemArray[i].itemId == targetId {
          assert Matches(Items()[i], ById(targetId));
          return i;
        }
        i := i + 1;
      }
      return -1;
    }

    /**
      * Appends a new record, unless the store is full or the id is taken;
      * a refused insertion changes nothing.
      */
    method InsertItem(id: int, name: string, qty: int, cost: real) returns (ok: bool)
      requires Valid()
      modifies this`currentItemCount, itemArray
      ensures Valid()
      ensures ok <==> old(currentItemCount) < MaxItems && !HasId(old(Items()), id)
      ensures ok ==> Items() == old(Items()) + [Item(id, name, qty, cost)]
      ensures ok ==> FirstIndex(Items(), ById(id)) == old(currentItemCount)
      ensures !ok ==> unchanged(this, itemArray)
    {
      FirstIndexAbsent(Items(), id);
      if currentItemCount >= MaxItems {
        return false;
      }
      var existing := FindItemIndex(id);
      if existing != -1 {
        return false;
      }
      ghost var before := Items();
      itemArray[currentItemCount] := Item(id, name, qty, cost);
      currentItemCount := currentItemCount + 1;
      assert Items() == before + [Item(id, name, qty, cost)];
      AppendFresh(before, Item(id, name, qty, cost));
      return true;
    }

    /**
      * Removes the record with id `targetId`, moving every later record down
      * one slot; deleting an absent id changes nothing.
      */
    method DeleteItem(targetId: int) returns (ok: bool)
      requires Valid()
      modifies this`currentItemCount, itemArray
      ensures Valid()
      ensures ok <==> HasId(old(Items()), targetId)
      ensures ok ==> Items() == RemoveAt(old(Items()), FirstIndex(old(Items()), ById(targetId)))
      ensures !ok ==> unchanged(this, itemArray)
      ensures !HasId(Items(), targetId)
    {
      var itemIndex := FindItemIndex(targetId);
      if itemIndex == -1 {
        return false;
      }
      ghost var before := Items();
      ShiftDown(itemArray, itemIndex, currentItemCount);
      currentItemCount := currentItemCount - 1;
      assert itemArray[..currentItemCount] == RemoveAt(before, itemIndex);
      RemoveKeepsDistinct(before, itemIndex);
      FirstIndexAbsent(Items(), targetId);
      return true;
    }

    /** The slot of the live item with id `searchId`, if there is one. */
    method SearchItemById(searchId: int) returns (found: Option<nat>)
      requires Valid()
      ensures found.None? <==> !HasId(Items(), searchId)
      ensures found.Some? ==> found.value < currentItemCount && Items()[found.value].itemId == searchId
    {
      var index := FindItemIndex(searchId);
      if index != -1 {
        return Some(index);
      }
      return None;
    }

    /**
      * The slot of the first live item named `searchName` in insertion order,
      * if there is one; later items of the same name are never returned.
      */
    method SearchItemByName(searchName: string) returns (found: Option<nat>)
      requires Valid()
      ensures found.None? <==> forall i :: 0 <= i < currentItemCount ==> Items()[i].itemName != searchName
      ensures found.Some? ==> found.value < currentItemCount && Items()[found.value].itemName == searchName
      ensures found.Some? ==> forall j :: 0 <= j < found.value ==> Items()[j].itemName != searchName
      ensures found == if FirstIndex(Items(), ByName(searchName)) == -1 then None
                       else Some(FirstIndex(Items(), ByName(searchName)))
    {
      var i := 0;
      while i < currentItemCount
        invariant 0 <= i <= currentItemCount
        invariant forall j :: 0 <= j < i ==> Items()[j].itemName != searchName
      {
        if itemArray[i].itemName == searchName {
          assert Matches(Items()[i], ByName(searchName));
          return Some(i);
        }
        i := i + 1;
      }
      assert forall j :: 0 <= j < currentItemCount ==> !Matches(Items()[j], ByName(searchName));
      return None;
    }

    /** The table's cells and values in row-major order: price range outer, quantity range inner. */
    method DisplayPriceQuantityRowMajor() returns (visits: seq<Visit>)
      requires Valid()
      ensures |visits| == CellCount
      ensures forall k :: 0 <= k < CellCount ==>
                visits[k].cell == RowMajorOrder()[k] &&
                visits[k].value == TableAt(visits[k].cell)
    {
      visits := [];
      var row := 0;
      while row < PriceCategories
        invariant 0 <= row <= PriceCategories
        invariant |visits| == row * QtyCategories
        invariant forall k :: 0 <= k < |visits| ==>
                    visits[k].cell == RowMajorOrder()[k] &&
                    visits[k].value == TableAt(visits[k].cell)
      {
        var col := 0;
        while col < QtyCategories
          invariant 0 <= col <= QtyCategories
          invariant |visits| == row * QtyCategories + col
          invariant forall k :: 0 <= k < |visits| ==>
                      visits[k].cell == RowMajorOrder()[k] &&
                      visits[k].value == TableAt(visits[k].cell)
        {
          assert RowMajorOrder()[|visits|] == Cell(row, col);
          visits := visits + [Visit(Cell(row, col), priceQuantityTable[row, col])];
          col := col + 1;
        }
        row := row + 1;
      }
    }

    /** The table's cells and values in column-major order: quantity range outer, price range inner. */
    method DisplayPriceQuantityColumnMajor() returns (visits: seq<Visit>)
      requires Valid()
      ensures |visits| == CellCount
      ensures forall k :: 0 <= k < CellCount ==>
                visits[k].cell == ColumnMajorOrder()[k] &&
                visits[k].value == TableAt(visits[k].cell)
    {
      visits := [];
      var col := 0;
      while col < QtyCategories
        invariant 0 <= col <= QtyCategories
        invariant |visits| == col * PriceCategories
        invariant forall k :: 0 <= k < |visits| ==>
                    visits[k].cell == ColumnMajorOrder()[k] &&
                    visits[k].value == TableAt(visits[k].cell)
      {
        var row := 0;
        while row < PriceCategories
          invariant 0 <= row <= PriceCategories
          invariant |visits| == col * PriceCategories + row
          invariant forall k :: 0 <= k < |visits| ==>
                      visits[k].cell == ColumnMajorOrder()[k] &&
                      visits[k].value == TableAt(visits[k].cell)
        {
          assert ColumnMajorOrder()[|visits|] == Cell(row, col);
          visits := visits + [Visit(Cell(row, col), priceQuantityTable[row, col])];
          row := row + 1;
        }
        col := col + 1;
      }
    }

    /**
      * Appends `(itemId, restockFreq)` to the rarely-restocked list unless it is
      * full, without consulting the item array.
      */
    method AddRareItem(itemId: int, restockFreq: int)
      requires Valid()
      modifies this`rareCount, rareItems, rareFreq
      ensures Valid()
      ensures RareList() == if old(rareCount) < MaxItems
                            then old(RareList()) + [RareItem(itemId, restockFreq)]
                            else old(RareList())
      ensures old(rareCount) >= MaxItems ==> unchanged(this, rareItems, rareFreq)
    {
      if rareCount < MaxItems {
        ghost var before := RareList();
        rareItems[rareCount] := itemId;
        rareFreq[rareCount] := restockFreq;
        rareCount := rareCount + 1;
        assert RareList() == before + [RareItem(itemId, restockFreq)];
      }
    }

    /** Stores `value` in cell `(priceRange, qtyRange)`; an index out of range changes nothing. */
    method UpdatePriceQuantityTable(priceRange: int, qtyRange: int, value: real)
      requires Valid()
      modifies priceQuantityTable
      ensures Valid()
      ensures InTable(Cell(priceRange, qtyRange)) ==> TableAt(Cell(priceRange, qtyRange)) == value
      ensures forall c :: InTable(c) && c != Cell(priceRange, qtyRange) ==> TableAt(c) == old(TableAt(c))
      ensures !InTable(Cell(priceRange, qtyRange)) ==> unchanged(priceQuantityTable)
    {
      if 0 <= priceRange < PriceCategories && 0 <= qtyRange < QtyCategories {
        priceQuantityTable[priceRange, qtyRange] := value;
      }
    }

    /** The live items with at most `threshold` units in stock, in insertion order. */
    method CheckLowStock(threshold: int := DefaultLowStockThreshold) returns (low: seq<Item>)
      requires Valid()
      ensures low == LowStock(Items(), threshold)
    {
      low := [];
      var i := 0;
      while i < currentItemCount
        invariant 0 <= i <= currentItemCount
        invariant low == LowStock(Items()[..i], threshold)
      {
        LowStockStep(Items(), i, threshold);
        if itemArray[i].quantity <= threshold {
          low := low + [itemArray[i]];
        }
        i := i + 1;
      }
      assert Items()[..i] == Items();
    }

    /** The summed value `quantity * price` over the live items. */
    method CalculateTotalInventoryValue() returns (totalValue: real)
      requires Valid()
      ensures totalValue == TotalValue(Items())
    {
      totalValue := 0.0;
      var i := 0;
      while i < currentItemCount
        invariant 0 <= i <= currentItemCount
        invariant totalValue == TotalValue(Items()[..i])
      {
        TotalValueStep(Items(), i);
        totalValue := totalValue + itemArray[i].quantity as real * itemArray[i].price;
        i := i + 1;
      }
      assert Items()[..i] == Items();
    }
  }
}
