/**
 * Inventory records: an item copied field by field from its data, and an
 * inventory holding fresh copies of the items it is given.
 */
module Items {
  import opened Wrappers
  import opened Types

  class InventoryItem {
    var id: int
    var productName: string
    var manufacturer: string
    var category: string
    var quantity: int
    var expiryDate: Option<string>
    var unitPrice: Option<real>

    /** The item's fields as a plain value. */
    function Data(): ItemData
      reads this
    {
      ItemData(id, productName, manufacturer, category, quantity, expiryDate, unitPrice)
    }

    /**
     * Copies every field of `data`; an absent expiry date or unit price stays
     * absent. Given an existing item's `Data()`, this is a fresh, field-equal copy.
     */
    constructor (data: ItemData)
      ensures id == data.id
      ensures productName == data.productName && manufacturer == data.manufacturer && category == data.category
      ensures quantity == data.quantity
      ensures expiryDate == data.expiryDate && unitPrice == data.unitPrice
      ensures Data() == data
    {
      id := data.id;
      productName := data.productName;
      manufacturer := data.manufacturer;
      category := data.category;
      quantity := data.quantity;
      expiryDate := data.expiryDate;
      unitPrice := data.unitPrice;
    }
  }

  /** The data of each item of `items`, in order. */
  function DataOf(items: seq<InventoryItem>): (r: seq<ItemData>)
    reads items
    ensures |r| == |items|
    ensures forall i :: 0 <= i < |items| ==> r[i] == items[i].Data()
  {
    if items == [] then [] else [items[0].Data()] + DataOf(items[1..])
  }

  /** No object occurs twice in `items`. */
  predicate Distinct(items: seq<InventoryItem>) {
    forall i, j :: 0 <= i < j < |items| ==> items[i] != items[j]
  }

  class Inventory {
    var items: seq<InventoryItem>

    /**
     * Holds a fresh copy of each given item, in the same order; neither the
     * argument nor its items are changed, and no copy is one of them.
     */
    constructor (input: seq<InventoryItem>)
      ensures DataOf(items) == old(DataOf(input))
      ensures forall i :: 0 <= i < |items| ==> fresh(items[i])
      ensures Distinct(items)
      ensures DataOf(input) == old(DataOf(input))
    {
      var copies: seq<InventoryItem> := [];
      var k := 0;
      while k < |input|
        invariant 0 <= k <= |input|
        invariant |copies| == k
        invariant forall i :: 0 <= i < k ==> fresh(copies[i]) && copies[i].Data() == input[i].Data()
        invariant Distinct(copies)
      {
        var item := new InventoryItem(input[k].Data());
        copies := copies + [item];
        k := k + 1;
      }
      items := copies;
    }
  }
}
