/** The inventory views of inventory/views.py that change or scan the
    stock: `MedicineViewSet.adjust_inventory`, which updates batch rows
    in place and appends log rows item by item, and `low_stock`. The
    `Ledger` object holds the three tables; each method is proved to
    leave exactly the state the functions of InventoryAdjust compute. */
module InventoryViews {
  import opened Base
  import opened InventoryModels
  import opened InventorySerializers
  import opened InventoryAdjust
  import CorePermissions

  class Ledger {
    var medicines: map<MedicineId, Medicine>
    var batches: map<BatchId, Batch>
    var nextBatchId: BatchId
    var logs: seq<LogEntry>

    /** The tables as a value. */
    function Snapshot(): Tables
      reads this
    {
      Tables(medicines, batches, nextBatchId, logs)
    }

    /** An inventory with the given medicines and no batches or logs yet. */
    constructor (initial: map<MedicineId, Medicine>)
      ensures Snapshot() == Tables(initial, map[], 1, [])
      ensures Consistent(Snapshot()) <==> UniqueBarcodes(initial)
    {
      medicines := initial;
      batches := map[];
      nextBatchId := 1;
      logs := [];
    }

    /** The order branch of one item (views.py:172-199 and the log row
        of 269-277). */
    method ReceiveOrder(req: Request, item: LineItem) returns (outcome: Outcome)
      requires item.medicineId in medicines
      requires NamesBatch(item) ==> item.batchId.value in batches
      modifies this
      ensures Snapshot() == ReceiveItem(old(Snapshot()), req, item).tables
      ensures outcome == ReceiveItem(old(Snapshot()), req, item).outcome
    {
      var m := item.medicineId;
      var q := item.quantity;
      var note := OrderNote(req.sourceId);
      var target: BatchId;
      if NamesBatch(item) {
        target := item.batchId.value;
      } else {
        var existing := FindOrderBatch(batches, m, OrderBatchPrefix(req.sourceId), 0, nextBatchId);
        if existing.Some? {
          target := existing.value;
        } else {
          if q < 0 {
            return Failure(ServerFailure(NegativeStockRejected));
          }
          target := nextBatchId;
          var expiry := if item.expirationDate.Some? then item.expirationDate.value
                        else req.today + ORDER_SHELF_LIFE_DAYS;
          var cost := if item.costPerUnit.Some? then item.costPerUnit.value
                      else medicines[m].pricePerUnit;
          batches := batches[target := Batch(m, OrderBatchNumber(req.sourceId, m), q, expiry, cost)];
          nextBatchId := nextBatchId + 1;
          logs := logs + [LogEntry(m, Some(target), Add, q, req.actor, note)];
          return Success;
        }
      }
      var b := batches[target];
      if b.quantity + q < 0 {
        return Failure(ServerFailure(NegativeStockRejected));
      }
      batches := batches[target := b.(quantity := b.quantity + q)];
      logs := logs + [LogEntry(m, Some(target), Add, q, req.actor, note)];
      return Success;
    }

    /** The prescription branch for a named batch (views.py:255-267 and
        the log row of 269-277). */
    method DispenseFromBatch(req: Request, item: LineItem) returns (outcome: Outcome)
      requires NamesBatch(item) && item.batchId.value in batches
      modifies this
      ensures Snapshot() == DispenseExact(old(Snapshot()), req, item).tables
      ensures outcome == DispenseExact(old(Snapshot()), req, item).outcome
    {
      var bid := item.batchId.value;
      var b := batches[bid];
      if b.quantity < item.quantity {
        return Failure(InsufficientBatchStock(b.batchNumber));
      }
      batches := batches[bid := b.(quantity := b.quantity - item.quantity)];
      logs := logs + [LogEntry(item.medicineId, Some(bid), Dispense, -item.quantity, req.actor, PrescriptionNote(req.sourceId))];
      return Success;
    }

    /** One visited batch of the FIFO walk (views.py:215-246): the batch
        gives what it holds, up to the outstanding demand, and one
        DISPENSE row of minus that amount records it. */
    method TakeFromBatch(id: BatchId, remaining: int, m: MedicineId, actor: string, note: string)
      returns (taken: int, entry: LogEntry)
      requires id in batches && remaining > 0
      modifies this
      ensures taken == if old(batches[id].quantity) >= remaining then remaining else old(batches[id].quantity)
      ensures 0 <= taken <= remaining
      ensures entry == LogEntry(m, Some(id), Dispense, -taken, actor, note)
      ensures batches == old(batches)[id := old(batches[id]).(quantity := old(batches[id].quantity) - taken)]
      ensures logs == old(logs) + [entry]
      ensures medicines == old(medicines) && nextBatchId == old(nextBatchId)
    {
      var b := batches[id];
      if b.quantity >= remaining {
        taken := remaining;
        batches := batches[id := b.(quantity := b.quantity - remaining)];
      } else {
        taken := b.quantity;
        batches := batches[id := b.(quantity := 0)];
      }
      entry := LogEntry(m, Some(id), Dispense, -taken, actor, note);
      logs := logs + [entry];
    }

    /** The loop of the FIFO walk (views.py:210-246) over `order` with
        demand `demand`: each visited batch is emptied or reduced in
        place and logged; the walk stops once the demand is met. */
    method WalkBatches(order: seq<BatchId>, demand: int, m: MedicineId, actor: string, note: string)
      returns (remaining: int)
      requires AllIn(batches, order)
      modifies this
      ensures var w := Walk(old(batches), order, demand, m, actor, note);
        batches == w.batches && logs == old(logs) + w.logs && remaining == w.remaining
      ensures medicines == old(medicines) && nextBatchId == old(nextBatchId)
    {
      ghost var whole := Walk(batches, order, demand, m, actor, note);
      ghost var done: seq<LogEntry> := [];
      remaining := demand;
      var i := 0;
      while i < |order|
        invariant 0 <= i <= |order|
        invariant medicines == old(medicines) && nextBatchId == old(nextBatchId)
        invariant logs == old(logs) + done
        invariant AllIn(batches, order[i..])
        invariant var rest := Walk(batches, order[i..], remaining, m, actor, note);
          whole == Walked(rest.batches, done + rest.logs, rest.remaining)
      {
        if remaining <= 0 {
          break;
        }
        ghost var before, remainingBefore, doneBefore := batches, remaining, done;
        assert order[i..][0] == order[i];
        var taken, entry := TakeFromBatch(order[i], remaining, m, actor, note);
        remaining := remaining - taken;
        done := done + [entry];
        WalkAdvance(before, order, i, remainingBefore, taken, batches, entry, m, actor, note, doneBefore, whole);
        i := i + 1;
      }
      assert order[i..] == [] || remaining <= 0;
    }

    /** FIFO dispense (views.py:203-254): batches of the medicine with
        stock, earliest expiry first; a shortfall is reported after the
        walk, with the visited batches left as the walk left them. */
    method DispenseByExpiry(req: Request, item: LineItem) returns (outcome: Outcome)
      requires item.medicineId in medicines
      modifies this
      ensures Snapshot() == InventoryAdjust.DispenseFifo(old(Snapshot()), req, item).tables
      ensures outcome == InventoryAdjust.DispenseFifo(old(Snapshot()), req, item).outcome
    {
      var m := item.medicineId;
      var order := FifoOrder(batches, m, nextBatchId);
      var remaining := WalkBatches(order, item.quantity, m, req.actor, FifoNote(req.sourceId));
      if remaining > 0 {
        return Failure(InsufficientStock(medicines[m].name));
      }
      return Success;
    }

    /** One pass of the `for item in items` loop (views.py:165-288): the
        lookups with their 404s, then the branch the source type selects. */
    method ProcessItem(req: Request, item: LineItem) returns (outcome: Outcome)
      modifies this
      ensures Snapshot() == ApplyItem(old(Snapshot()), req, item).tables
      ensures outcome == ApplyItem(old(Snapshot()), req, item).outcome
    {
      if item.medicineId !in medicines {
        return Failure(MedicineNotFound(item.medicineId));
      }
      if NamesBatch(item) && item.batchId.value !in batches {
        return Failure(BatchNotFound(item.batchId.value));
      }
      match req.sourceType {
        case OrderSource =>
          outcome := ReceiveOrder(req, item);
        case PrescriptionSource =>
          if NamesBatch(item) {
            outcome := DispenseFromBatch(req, item);
          } else {
            outcome := DispenseByExpiry(req, item);
          }
        case OtherSource(_) =>
          outcome := Failure(ServerFailure(ActionUnassigned));
      }
    }

    /** `adjust_inventory` (views.py:145-290): the role check, then the
        items in order; the first failing item ends the request with
        everything before it, and any part of a FIFO walk it did,
        kept. The caller is authenticated: `IsAuthenticated` refuses the
        others first. */
    method AdjustInventory(req: Request, items: seq<LineItem>) returns (outcome: Outcome)
      modifies this
      ensures Snapshot() == Adjusted(old(Snapshot()), req, items).tables
      ensures outcome == Adjusted(old(Snapshot()), req, items).outcome
    {
      if !MayAdjust(req.role) {
        return Failure(PermissionDenied);
      }
      var k := 0;
      while k < |items|
        invariant 0 <= k <= |items|
        invariant ApplyItems(old(Snapshot()), req, items) == ApplyItems(Snapshot(), req, items[k..])
      {
        assert items[k..][0] == items[k] && items[k..][1..] == items[k + 1..];
        var o := ProcessItem(req, items[k]);
        if o.Failure? {
          return o;
        }
        k := k + 1;
      }
      return Success;
    }

    /** `low_stock` (views.py:90-105): the ids of the medicines whose
        batches hold no more than `min_quantity` in total, in id order;
        `None` is the 403 for a role other than admin or pharmacist. The
        caller is authenticated: `IsAuthenticated` refuses the others
        first. */
    method LowStock(role: string) returns (r: Option<seq<MedicineId>>)
      ensures r.None? <==> !MayAdjust(role)
      ensures r.Some? ==> forall i, j :: 0 <= i < j < |r.value| ==> r.value[i] < r.value[j]
      ensures r.Some? ==> forall id :: id in r.value <==> IsLowStockIn(Snapshot(), id)
    {
      if !MayAdjust(role) {
        return None;
      }
      ghost var t := Snapshot();
      var todo := medicines.Keys;
      var found: seq<MedicineId> := [];
      while todo != {}
        invariant todo <= t.medicines.Keys
        invariant forall i, j :: 0 <= i < j < |found| ==> found[i] < found[j]
        invariant forall i, id :: 0 <= i < |found| && id in todo ==> found[i] < id
        invariant forall id :: id in found <==> id !in todo && IsLowStockIn(t, id)
        decreases todo
      {
        LeastExists(todo);
        var id :| IsLeast(id, todo);
        if IsLowStock(medicines[id], BatchesOf(batches, id, nextBatchId)) {
          found := found + [id];
        }
        todo := todo - {id};
      }
      return Some(found);
    }
  }

  /** The endpoint's filter and the serializer's flag in one predicate:
      `m` is a medicine whose batches total no more than its minimum. */
  ghost predicate IsLowStockIn(t: Tables, m: MedicineId)
  {
    m in t.medicines && IsLowStock(t.medicines[m], BatchesOf(t.batches, m, t.nextBatchId))
  }

  /** `x` is the least id of `s`. */
  predicate IsLeast(x: nat, s: set<nat>)
  {
    x in s && forall y :: y in s ==> x <= y
  }

  /** A non-empty set of ids has a least element, which the scan of
      `low_stock` takes next. */
  lemma {:induction false} LeastExists(s: set<nat>)
    requires s != {}
    ensures exists x :: IsLeast(x, s)
    decreases |s|
  {
    var x :| x in s;
    var rest := s - {x};
    if rest == {} {
      forall y | y in s ensures x <= y {
        assert y == x || y in rest;
      }
      assert IsLeast(x, s);
    } else {
      LeastExists(rest);
      var z :| IsLeast(z, rest);
      var least := if x < z then x else z;
      forall y | y in s ensures least <= y {
        if y != x {
          assert y in rest;
        }
      }
      assert IsLeast(least, s);
    }
  }

  // --- role tables of the inventory view sets ------------------------

  /** `SupplierViewSet.role_permissions` (views.py:21-27); the view set
      checks `IsAdminOrPharmacist`, not this table. */
  const SUPPLIER_ROLE_PERMISSIONS: CorePermissions.RoleTable := map[
    "get" := [ADMIN, PHARMACIST], "post" := [ADMIN], "put" := [ADMIN],
    "patch" := [ADMIN], "delete" := [ADMIN]]

  /** `MedicineViewSet.role_permissions` (views.py:61-67). */
  const MEDICINE_ROLE_PERMISSIONS: CorePermissions.RoleTable := map[
    "get" := [ADMIN, PHARMACIST, DOCTOR], "post" := [ADMIN, PHARMACIST],
    "put" := [ADMIN, PHARMACIST], "patch" := [ADMIN, PHARMACIST], "delete" := [ADMIN]]

  /** The supplier table is never consulted: `IsAdminOrPharmacist`
      admits a pharmacist for POST and DELETE, which the table would
      refuse. */
  lemma SupplierTableUnused(u: User)
    requires u.authenticated && u.role == PHARMACIST
    ensures CorePermissions.IsAdminOrPharmacist(u)
    ensures !CorePermissions.RoleBasedHasPermission(u, "POST", Some(SUPPLIER_ROLE_PERMISSIONS))
    ensures !CorePermissions.RoleBasedHasPermission(u, "DELETE", Some(SUPPLIER_ROLE_PERMISSIONS))
  {
    assert Lower("POST") == "post";
    assert Lower("DELETE") == "delete";
  }

  /** Reaching `adjust_inventory` takes the view set's POST entry and
      then the view's own role check; both admit exactly the admins and
      pharmacists, so for an authenticated user the inner check never
      refuses anyone the first let through. */
  lemma AdjustGateMatchesTable(u: User)
    requires u.authenticated
    ensures CorePermissions.RoleBasedHasPermission(u, "POST", Some(MEDICINE_ROLE_PERMISSIONS)) <==> MayAdjust(u.role)
  {
    assert Lower("POST") == "post";
  }
}
