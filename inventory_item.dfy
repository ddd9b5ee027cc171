/**
  * Product records and the specification of the inventory's live item
  * sequence: linear lookup, removal with compaction, the low-stock filter and
  * the total stock value, each as a function on `seq<Item>` with the lemmas
  * that the store's operations rely on.
  */
module InventoryItems {

  /** One product card: identifier, name, units in stock and unit price. */
  datatype Item = Item(itemId: int, itemName: string, quantity: int, price: real)

  /** What a default-constructed slot of the item array holds. */
  const DefaultItem: Item := Item(0, "", 0, 0.0)

  /** The low-stock threshold used when the caller gives none. */
  const DefaultLowStockThreshold: int := 10

  /** What a linear search compares each live record with. */
  datatype Key = ById(id: int) | ByName(name: string)

  predicate Matches(it: Item, key: Key) {
    match key
    case ById(id) => it.itemId == id
    case ByName(name) => it.itemName == name
  }

  /** No two records of `s` share an identifier. */
  predicate DistinctIds(s: seq<Item>) {
    forall i, j :: 0 <= i < j < |s| ==> s[i].itemId != s[j].itemId
  }

  /** Whether some record of `s` carries identifier `id`. */
  predicate HasId(s: seq<Item>, id: int) {
    exists i :: 0 <= i < |s| && s[i].itemId == id
  }

  /**
    * The index of the first record of `s` that matches `key`, or -1 when
    * none does: the result of a front-to-back scan that stops at the first hit.
    */
  function FirstIndex(s: seq<Item>, key: Key): (r: int)
    ensures -1 <= r < |s|
    ensures r == -1 <==> forall i :: 0 <= i < |s| ==> !Matches(s[i], key)
    ensures 0 <= r ==> Matches(s[r], key)
    ensures 0 <= r ==> forall j :: 0 <= j < r ==> !Matches(s[j], key)
  {
    if |s| == 0 then -1
    else if Matches(s[0], key) then 0
    else
      var r := FirstIndex(s[1..], key);
      if r == -1 then -1 else r + 1
  }

  /** `s` with the record at `k` taken out and everything after it moved down one place. */
  function RemoveAt(s: seq<Item>, k: nat): (r: seq<Item>)
    requires k < |s|
    ensures |r| == |s| - 1
    ensures forall i :: 0 <= i < k ==> r[i] == s[i]
    ensures forall i :: k <= i < |r| ==> r[i] == s[i + 1]
  {
    s[..k] + s[k + 1..]
  }

  /**
    * An array whose slots before `k` hold `before`'s records and whose slots
    * from `k` on hold `before`'s next records holds `RemoveAt(before, k)` as its
    * first `|before| - 1` slots: the state the deletion loop leaves behind.
    */
  lemma ShiftedDownIsRemoveAt(before: seq<Item>, after: seq<Item>, k: nat)
    requires k < |before| <= |after|
    requires forall j :: 0 <= j < k ==> after[j] == before[j]
    requires forall j :: k <= j < |before| - 1 ==> after[j] == before[j + 1]
    ensures after[..|before| - 1] == RemoveAt(before, k)
  {
  }

  /** By the uniqueness of identifiers, the id search finds each record at its own index. */
  lemma FirstIndexOfOwnId(s: seq<Item>, k: nat)
    requires DistinctIds(s) && k < |s|
    ensures FirstIndex(s, ById(s[k].itemId)) == k
  {
  }

  /** The id search fails exactly when no record carries the identifier. */
  lemma FirstIndexAbsent(s: seq<Item>, id: int)
    ensures FirstIndex(s, ById(id)) == -1 <==> !HasId(s, id)
  {
  }

  /**
    * Appending a record with a fresh identifier keeps identifiers distinct, and
    * the new record is the one the id search then finds, at the end.
    */
  lemma AppendFresh(s: seq<Item>, it: Item)
    requires DistinctIds(s)
    requires FirstIndex(s, ById(it.itemId)) == -1
    ensures DistinctIds(s + [it])
    ensures FirstIndex(s + [it], ById(it.itemId)) == |s|
  {
    var t := s + [it];
    forall i, j | 0 <= i < j < |t| ensures t[i].itemId != t[j].itemId {
      if j == |s| {
        assert !Matches(s[i], ById(it.itemId));
      }
    }
    FirstIndexOfOwnId(t, |s|);
  }

  /**
    * Removing the record at `k` keeps identifiers distinct, makes its
    * identifier unfindable, and leaves every other identifier as findable as before.
    */
  lemma RemoveKeepsDistinct(s: seq<Item>, k: nat)
    requires DistinctIds(s) && k < |s|
    ensures DistinctIds(RemoveAt(s, k))
    ensures FirstIndex(RemoveAt(s, k), ById(s[k].itemId)) == -1
    ensures forall id :: id != s[k].itemId ==>
              (HasId(RemoveAt(s, k), id) <==> HasId(s, id))
  {
    var r := RemoveAt(s, k);
    forall i, j | 0 <= i < j < |r| ensures r[i].itemId != r[j].itemId {
      var i' := if i < k then i else i + 1;
      var j' := if j < k then j else j + 1;
      assert r[i] == s[i'] && r[j] == s[j'];
    }
    forall i | 0 <= i < |r| ensures !Matches(r[i], ById(s[k].itemId)) {
      var i' := if i < k then i else i + 1;
      assert r[i] == s[i'];
    }
    forall id | id != s[k].itemId ensures HasId(r, id) <==> HasId(s, id) {
      if HasId(s, id) {
        var i :| 0 <= i < |s| && s[i].itemId == id;
        var i' := if i < k then i else i - 1;
        assert r[i'] == s[i];
      }
    }
  }

  /** Inserting a fresh record and then deleting it gives back the sequence one started with. */
  lemma InsertThenDelete(s: seq<Item>, it: Item)
    requires FirstIndex(s, ById(it.itemId)) == -1
    ensures FirstIndex(s + [it], ById(it.itemId)) == |s|
    ensures RemoveAt(s + [it], |s|) == s
  {
  }

  /** The records of `s` whose stock is at or below `threshold`, in their order in `s`. */
  function LowStock(s: seq<Item>, threshold: int): (r: seq<Item>)
    ensures |r| <= |s|
  {
    if |s| == 0 then []
    else
      var last := s[|s| - 1];
      LowStock(s[..|s| - 1], threshold) + (if last.quantity <= threshold then [last] else [])
  }

  /** The low-stock report holds exactly the records of `s` with at most `threshold` units. */
  lemma {:induction false} LowStockMembers(s: seq<Item>, threshold: int)
    ensures forall x :: x in LowStock(s, threshold) <==> x in s && x.quantity <= threshold
  {
    if |s| != 0 {
      var s' := s[..|s| - 1];
      LowStockMembers(s', threshold);
      assert s == s' + [s[|s| - 1]];
    }
  }

  /**
    * The low-stock filter commutes with concatenation: the report on `a + b`
    * is the report on `a` followed by the report on `b`, so it keeps the order.
    */
  lemma {:induction false} LowStockConcat(a: seq<Item>, b: seq<Item>, threshold: int)
    ensures LowStock(a + b, threshold) == LowStock(a, threshold) + LowStock(b, threshold)
  {
    if |b| == 0 {
      assert a + b == a;
    } else {
      var b' := b[..|b| - 1];
      var x := b[|b| - 1];
      assert (a + b)[..|a + b| - 1] == a + b';
      assert (a + b)[|a + b| - 1] == x;
      LowStockConcat(a, b', threshold);
    }
  }

  /** Filtering a low-stock report again with the same threshold changes nothing. */
  lemma {:induction false} LowStockIdempotent(s: seq<Item>, threshold: int)
    ensures LowStock(LowStock(s, threshold), threshold) == LowStock(s, threshold)
  {
    if |s| != 0 {
      var s' := s[..|s| - 1];
      var x := s[|s| - 1];
      var tail := if x.quantity <= threshold then [x] else [];
      LowStockIdempotent(s', threshold);
      LowStockConcat(LowStock(s', threshold), tail, threshold);
      assert LowStock(tail, threshold) == tail by {
        if x.quantity <= threshold {
          assert tail[..0] == [];
        }
      }
    }
  }

  /** What one record adds to the stock value: units times unit price. */
  function LineValue(it: Item): real {
    it.quantity as real * it.price
  }

  /**
    * The summed stock value of the records of `s`, accumulated front to back;
    * stock of no negative quantity or price is worth no less than nothing.
    */
  function TotalValue(s: seq<Item>): (r: real)
    ensures (forall i :: 0 <= i < |s| ==> 0 <= s[i].quantity && 0.0 <= s[i].price) ==> 0.0 <= r
  {
    if |s| == 0 then 0.0 else TotalValue(s[..|s| - 1]) + LineValue(s[|s| - 1])
  }

  /** One step of the accumulation: the value of `s[..k + 1]` adds record `k` to the value of `s[..k]`. */
  lemma TotalValueStep(s: seq<Item>, k: nat)
    requires k < |s|
    ensures TotalValue(s[..k + 1]) == TotalValue(s[..k]) + LineValue(s[k])
  {
    assert s[..k + 1][..k] == s[..k];
  }

  /** The stock value of `a + b` is the value of `a` plus the value of `b`. */
  lemma {:induction false} TotalValueConcat(a: seq<Item>, b: seq<Item>)
    ensures TotalValue(a + b) == TotalValue(a) + TotalValue(b)
  {
    if |b| == 0 {
      assert a + b == a;
    } else {
      var b' := b[..|b| - 1];
      assert (a + b)[..|a + b| - 1] == a + b';
      assert (a + b)[|a + b| - 1] == b[|b| - 1];
      TotalValueConcat(a, b');
    }
  }

  /** Deleting the record at `k` lowers the stock value by exactly that record's value. */
  lemma {:induction false} TotalValueRemoveAt(s: seq<Item>, k: nat)
    requires k < |s|
    ensures TotalValue(RemoveAt(s, k)) == TotalValue(s) - LineValue(s[k])
  {
    var init, last := s[..|s| - 1], s[|s| - 1];
    if k == |s| - 1 {
      assert RemoveAt(s, k) == init;
    } else {
      var r := RemoveAt(init, k);
      assert RemoveAt(s, k) == r + [last];
      assert (r + [last])[..|r + [last]| - 1] == r;
      TotalValueRemoveAt(init, k);
    }
  }

  /** One step of a front-to-back scan: the report on `s[..k + 1]` extends the report on `s[..k]`. */
  lemma LowStockStep(s: seq<Item>, k: nat, threshold: int)
    requires k < |s|
    ensures LowStock(s[..k + 1], threshold)
            == LowStock(s[..k], threshold) + (if s[k].quantity <= threshold then [s[k]] else [])
  {
    assert s[..k + 1][..k] == s[..k];
  }

  /** The six records the store's demonstration inserts, in order. */
  function DemoItems(): (s: seq<Item>)
    ensures |s| == 6
  {
    [ Item(101, "Basmati Rice", 50, 75.50), Item(102, "Toor Dal", 30, 120.00),
      Item(103, "Cooking Oil", 25, 180.75), Item(104, "Wheat Flour", 40, 45.25),
      Item(105, "Sugar", 20, 42.00), Item(106, "Tea Leaves", 15, 250.00) ]
  }

  /**
    * With threshold 25, stock levels 50, 30, 25, 40, 20, 15 (those of the
    * demonstration) report exactly the third, fifth and sixth records, in that order.
    */
  lemma DemoLowStock(s: seq<Item>)
    requires |s| == 6
    requires s[0].quantity == 50 && s[1].quantity == 30 && s[2].quantity == 25
    requires s[3].quantity == 40 && s[4].quantity == 20 && s[5].quantity == 15
    ensures LowStock(s, 25) == [s[2], s[4], s[5]]
  {
    assert s[..0] == [];
    LowStockStep(s, 0, 25);
    LowStockStep(s, 1, 25);
    LowStockStep(s, 2, 25);
    LowStockStep(s, 3, 25);
    LowStockStep(s, 4, 25);
    LowStockStep(s, 5, 25);
    assert s[..6] == s;
  }

  /**
    * The demonstration's first two products, 50 units at 75.50 and 30 at
    * 120.00, are worth 7375.00; all six are worth 18293.75.
    */
  lemma DemoTotalValue()
    ensures TotalValue(DemoItems()[..2]) == 7375.0
    ensures TotalValue(DemoItems()) == 18293.75
  {
    var s := DemoItems();
    assert s[..0] == [];
    TotalValueStep(s, 0);
    TotalValueStep(s, 1);
    assert TotalValue(s[..2]) == 7375.0;
    TotalValueStep(s, 2);
    TotalValueStep(s, 3);
    TotalValueStep(s, 4);
    TotalValueStep(s, 5);
    assert s[..6] == s;
  }
}
