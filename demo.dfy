/**
  * The store's demonstration run as client methods, in the order of its
  * calls, with what a caller can conclude from the contracts alone.
  */
module InventoryDemo {
  import opened Wrappers
  import opened InventoryItems
  import opened PriceQuantityTable
  import opened InventoryManagement

  /** The demonstration's products carry the ids 101 to 106, in order. */
  lemma DemoIds()
    ensures forall i :: 0 <= i < 6 ==> DemoItems()[i].itemId == 101 + i
  {
  }

  /** Each demonstration product's id is absent from the products inserted before it. */
  lemma DemoPrefixLacksNext(k: nat)
    requires k < 6
    ensures !HasId(DemoItems()[..k], DemoItems()[k].itemId)
  {
  }

  /** Inserts demonstration product `k` into a store holding the products before it. */
  method StockNext(grocery: InventoryManagementSystem, k: nat)
    requires k < 6 && grocery.Valid() && grocery.Items() == DemoItems()[..k]
    modifies grocery`currentItemCount, grocery.itemArray
    ensures grocery.Valid() && grocery.Items() == DemoItems()[..k + 1]
  {
    var it := DemoItems()[k];
    DemoPrefixLacksNext(k);
    var ok := grocery.InsertItem(it.itemId, it.itemName, it.quantity, it.price);
    assert ok;
    assert DemoItems()[..k + 1] == DemoItems()[..k] + [it];
  }

  /** A new store after the demonstration's six insertions. */
  method StockGrocery() returns (grocery: InventoryManagementSystem)
    ensures grocery.Valid() && fresh(grocery) && fresh(grocery.itemArray)
    ensures fresh(grocery.priceQuantityTable) && fresh(grocery.rareItems) && fresh(grocery.rareFreq)
    ensures grocery.Items() == DemoItems() && grocery.RareList() == []
    ensures forall c :: InTable(c) ==> grocery.TableAt(c) == 0.0
  {
    grocery := new InventoryManagementSystem();
    assert DemoItems()[..0] == [];
    StockNext(grocery, 0);
    StockNext(grocery, 1);
    StockNext(grocery, 2);
    StockNext(grocery, 3);
    StockNext(grocery, 4);
    StockNext(grocery, 5);
    assert DemoItems()[..6] == DemoItems();
  }

  /** The demonstration's two searches: id 103 is in slot 2 and "Sugar" in slot 4. */
  method SearchGrocery(grocery: InventoryManagementSystem)
    requires grocery.Valid() && grocery.Items() == DemoItems()
  {
    var foundItem := grocery.SearchItemById(103);
    assert foundItem == Some(2) by { FirstIndexOfOwnId(grocery.Items(), 2); }
    foundItem := grocery.SearchItemByName("Sugar");
    assert foundItem == Some(4);
  }

  /** The demonstration's three table updates on a zeroed table, then both displays. */
  method TabulateGrocery(grocery: InventoryManagementSystem)
    requires grocery.Valid()
    requires forall c :: InTable(c) ==> grocery.TableAt(c) == 0.0
    modifies grocery.priceQuantityTable
    ensures grocery.Valid()
  {
    grocery.UpdatePriceQuantityTable(0, 0, 100.5);
    grocery.UpdatePriceQuantityTable(1, 2, 250.75);
    grocery.UpdatePriceQuantityTable(2, 1, 180.25);
    var rows := grocery.DisplayPriceQuantityRowMajor();
    var cols := grocery.DisplayPriceQuantityColumnMajor();
    assert rows[0] == cols[0] == Visit(Cell(0, 0), 100.5);
    assert rows[6] == cols[11] == Visit(Cell(1, 2), 250.75);
    assert rows[9] == cols[7] == Visit(Cell(2, 1), 180.25);
    assert rows[19] == cols[19] == Visit(Cell(4, 3), 0.0);
  }

  /** The demonstration's three rare items, appended in call order to an empty list. */
  method ListRareItems(grocery: InventoryManagementSystem)
    requires grocery.Valid() && grocery.RareList() == []
    modifies grocery`rareCount, grocery.rareItems, grocery.rareFreq
    ensures grocery.Valid()
  {
    grocery.AddRareItem(107, 2);
    grocery.AddRareItem(108, 1);
    grocery.AddRareItem(109, 3);
    assert grocery.RareList() == [RareItem(107, 2), RareItem(108, 1), RareItem(109, 3)];
  }

  /** The demonstration's stock check, total value and deletion of product 106. */
  method CheckGrocery(grocery: InventoryManagementSystem)
    requires grocery.Valid() && grocery.Items() == DemoItems()
    modifies grocery`currentItemCount, grocery.itemArray
  {
    var low := grocery.CheckLowStock(25);
    DemoLowStock(grocery.Items());
    assert [low[0].itemId, low[1].itemId, low[2].itemId] == [103, 105, 106];
    var total := grocery.CalculateTotalInventoryValue();
    DemoTotalValue();
    assert total == 18293.75;
    FirstIndexOfOwnId(grocery.Items(), 5);
    var ok := grocery.DeleteItem(106);
    assert ok && grocery.Items() == DemoItems()[..5];
  }

  /** The demonstration run, step by step on one store. */
  method DemonstrateSystem() {
    var grocery := StockGrocery();
    SearchGrocery(grocery);
    TabulateGrocery(grocery);
    ListRareItems(grocery);
    CheckGrocery(grocery);
  }
}
