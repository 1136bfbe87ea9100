/** The derived fields the inventory serializers compute: a medicine's
    total stock over its batches, its low-stock flag, and a batch's
    signed number of days until expiry. */
module InventorySerializers {
  import opened Base
  import opened InventoryModels

  /** `MedicineSerializer.get_total_quantity`: the sum of the batch
      quantities. */
  function TotalQuantity(batches: seq<Batch>): nat
  {
    if batches == [] then 0 else batches[0].quantity + TotalQuantity(batches[1..])
  }

  /** `MedicineSerializer.get_low_stock`: at or below the reorder
      threshold, equality included. */
  predicate IsLowStock(m: Medicine, batches: seq<Batch>)
  {
    TotalQuantity(batches) <= m.minQuantity
  }

  /** `BatchSerializer.get_days_until_expiry`: `(expiration_date - today).days`. */
  function DaysUntilExpiry(b: Batch, today: Date): (days: int)
    ensures days < 0 <==> b.expirationDate < today
    ensures days == 0 <==> b.expirationDate == today
    ensures today + days == b.expirationDate
  {
    b.expirationDate - today
  }

  lemma {:induction false} TotalQuantityAppend(a: seq<Batch>, b: seq<Batch>)
    ensures TotalQuantity(a + b) == TotalQuantity(a) + TotalQuantity(b)
  {
    if a == [] {
      assert a + b == b;
    } else {
      assert (a + b)[1..] == a[1..] + b;
      TotalQuantityAppend(a[1..], b);
    }
  }

  /** The total is zero exactly when every batch is empty, and no batch
      holds more than the total. */
  lemma {:induction false} TotalQuantityBounds(batches: seq<Batch>)
    ensures TotalQuantity(batches) == 0 <==> forall i :: 0 <= i < |batches| ==> batches[i].quantity == 0
    ensures forall i :: 0 <= i < |batches| ==> batches[i].quantity <= TotalQuantity(batches)
  {
    if batches != [] {
      TotalQuantityBounds(batches[1..]);
      assert forall i :: 1 <= i < |batches| ==> batches[i] == batches[1..][i - 1];
    }
  }

  /** A medicine with no stock at all is always reported low, whatever
      its threshold (`min_quantity` is non-negative). */
  lemma NoStockIsLowStock(m: Medicine, batches: seq<Batch>)
    requires forall i :: 0 <= i < |batches| ==> batches[i].quantity == 0
    ensures IsLowStock(m, batches)
  {
    TotalQuantityBounds(batches);
  }

  /** The total over the batch table, walked by id, grows by exactly the
      quantity of each batch of the medicine. */
  lemma TotalOfBatchesOfStep(bs: map<BatchId, Batch>, m: MedicineId, n: nat)
    ensures TotalQuantity(BatchesOf(bs, m, n + 1)) ==
      TotalQuantity(BatchesOf(bs, m, n)) + (if n in bs && bs[n].medicine == m then bs[n].quantity else 0)
  {
    var tail := if n in bs && bs[n].medicine == m then [bs[n]] else [];
    TotalQuantityAppend(BatchesOf(bs, m, n), tail);
  }
}
