/**
 * Inventory lookup by hospital id over an in-memory table of inventories.
 * The table is a parameter; the asynchronous wrapping of the result is not
 * modelled, and a thrown error is a `Failure`.
 */
module InventoryApi {
  import opened Wrappers
  import opened Types
  import opened Items

  const NoInventoryError: string := "No inventory found for the specified hospital ID"

  /**
   * Allocates one new item per entry of `data`, in order: mapping a list of
   * records to `new InventoryItem(...)`.
   */
  method NewItems(data: seq<ItemData>) returns (items: seq<InventoryItem>)
    ensures DataOf(items) == data
    ensures forall i :: 0 <= i < |items| ==> fresh(items[i])
    ensures Distinct(items)
  {
    items := [];
    var k := 0;
    while k < |data|
      invariant 0 <= k <= |data|
      invariant |items| == k
      invariant forall i :: 0 <= i < k ==> fresh(items[i]) && items[i].Data() == data[i]
      invariant Distinct(items)
    {
      var item := new InventoryItem(data[k]);
      items := items + [item];
      k := k + 1;
    }
  }

  /**
   * The inventory of hospital `hospitalId`: an error when the table has no
   * entry for it, otherwise a fresh `Inventory` whose items are fresh copies
   * of the entry's records, in order. An entry holding no records is found,
   * and gives an empty inventory.
   */
  method GetInventoryByHospitalId(inventories: map<int, seq<ItemData>>, hospitalId: int)
    returns (r: Result<Inventory, string>)
    ensures hospitalId !in inventories ==> r == Failure(NoInventoryError)
    ensures hospitalId in inventories ==>
      && r.Success?
      && fresh(r.value)
      && DataOf(r.value.items) == inventories[hospitalId]
      && (forall i :: 0 <= i < |r.value.items| ==> fresh(r.value.items[i]))
      && Distinct(r.value.items)
  {
    if hospitalId !in inventories {
      return Failure(NoInventoryError);
    }
    var records := inventories[hospitalId];
    var items := NewItems(records);
    var inventory := new Inventory(items);
    return Success(inventory);
  }
}
