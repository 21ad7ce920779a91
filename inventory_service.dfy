/**
 * InventoryService: setting a product's stock, creating its inventory record on first use, and
 * reading the record back.
 */
module InventoryService {
  import opened Wrappers
  import opened Entities

  /** `getInventoryByProductId`: the product's record, or "Inventory not found for product". */
  function GetInventoryByProductId(inventory: map<int, Inventory>, productId: int): (r: Result<Inventory>)
    ensures r.Ok? <==> productId in inventory
    ensures r.Ok? ==> r.value == inventory[productId]
    ensures r.Err? ==> r.error == NotFound("Inventory not found for product")
  {
    if productId in inventory then Ok(inventory[productId]) else Err(NotFound("Inventory not found for product"))
  }

  /** The inventory after an upsert: the product's record, found or new, now holds `quantity`. */
  function Upserted(inventory: map<int, Inventory>, productId: int, quantity: int, freshId: int): map<int, Inventory> {
    var record := if productId in inventory then inventory[productId] else Inventory(freshId, Some(0));
    inventory[productId := record.(quantity := Some(quantity))]
  }

  /**
   * After the upsert, reading the product's record gives the requested quantity; the record keeps
   * its id when it existed; and every other product's record is unchanged.
   */
  lemma UpsertThenGet(inventory: map<int, Inventory>, productId: int, quantity: int, freshId: int, other: int)
    ensures var after := Upserted(inventory, productId, quantity, freshId);
      && GetInventoryByProductId(after, productId).Ok?
      && GetInventoryByProductId(after, productId).value.quantity == Some(quantity)
      && GetInventoryByProductId(after, productId).value.id == (if productId in inventory then inventory[productId].id else freshId)
      && (other != productId ==> GetInventoryByProductId(after, other) == GetInventoryByProductId(inventory, other))
  {
  }

  /** Upserting twice with the same quantity is the same as upserting once. */
  lemma UpsertIdempotent(inventory: map<int, Inventory>, productId: int, quantity: int, freshId: int)
    ensures var once := Upserted(inventory, productId, quantity, freshId);
      Upserted(once, productId, quantity, freshId + 1) == once
  {
  }

  /**
   * `updateInventory`. An unknown product fails with "Product not found" and changes nothing.
   * Otherwise the product's record, or a new one when it has none, is saved with the requested
   * quantity (`@Min(0)` on the request), and nothing else changes.
   */
  method UpdateInventory(st: Store, productId: int, quantity: int) returns (r: Result<Inventory>)
    requires st.Valid()
    requires quantity >= 0
    modifies st
    ensures st.Valid()
    ensures r.Err? <==> productId !in old(st.products)
    ensures r.Err? ==> r.error == NotFound("Product not found") && st.Snapshot() == old(st.Snapshot())
    ensures r.Ok? ==> productId in st.inventory && r.value == st.inventory[productId]
    ensures r.Ok? ==>
      var d := old(st.Snapshot());
      var created := productId !in d.inventory;
      st.Snapshot() == d.(inventory := Upserted(d.inventory, productId, quantity, d.nextId),
                          nextId := if created then d.nextId + 1 else d.nextId)
  {
    if productId !in st.products {
      return Err(NotFound("Product not found"));
    }
    var record: Inventory;
    if productId in st.inventory {
      record := st.inventory[productId];
    } else {
      var id := st.NewId();
      record := Inventory(id, Some(0));
    }
    record := record.(quantity := Some(quantity));
    st.inventory := st.inventory[productId := record];
    r := Ok(record);
  }
}
