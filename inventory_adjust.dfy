/** The reconciliation rules of `MedicineViewSet.adjust_inventory`, as
    functions from the inventory tables before a line item to the tables
    after it and the item's outcome. The class-based ledger in
    InventoryViews runs the same rules in place and is proved equal to
    these functions; the lemmas here state what the rules guarantee:
    FIFO-by-expiry order, greedy depletion, one log entry per batch
    mutation, conservation between batch quantities and log deltas, and
    the documented absence of rollback. */
module InventoryAdjust {
  import opened Base
  import opened InventoryModels
  import opened InventorySerializers

  /** A `source_type` that is neither 'order' nor 'prescription'. */
  type OtherSourceText = s: string | s != "order" && s != "prescription" witness ""

  /** The request's `source_type`: the two values the view acts on, and
      any other text. */
  datatype SourceType = OrderSource | PrescriptionSource | OtherSource(text: OtherSourceText)

  /** One element of the request's `items` list. An absent key is `None`. */
  datatype LineItem = LineItem(
    medicineId: MedicineId,
    quantity: int,
    batchId: Option<BatchId>,
    expirationDate: Option<Date>,
    costPerUnit: Option<Decimal>)

  /** What the view reads from an authenticated request besides the
      items (the `IsAuthenticated` refusal comes first and is not part of
      this model): the caller's role and username, `source_type`, `source_id` as it is
      rendered into text, and the day the request runs. */
  datatype Request = Request(
    role: string,
    actor: string,
    sourceType: SourceType,
    sourceId: string,
    today: Date)

  /** Uncaught exceptions (HTTP 500): the database refusing a negative
      PositiveIntegerField, and `action` read before assignment when the
      source type is neither 'order' nor 'prescription'. */
  datatype ServerFault = NegativeStockRejected | ActionUnassigned

  datatype AdjustError =
    | PermissionDenied                       // 403
    | MedicineNotFound(medicineId: MedicineId) // 404
    | BatchNotFound(batchId: BatchId)        // 404
    | InsufficientStock(medicineName: string)  // 400, FIFO walk
    | InsufficientBatchStock(batchNumber: string) // 400, named batch
    | ServerFailure(fault: ServerFault)      // 500

  datatype Outcome = Success | Failure(error: AdjustError)

  /** The tables after a step and what the step reported. */
  datatype Step = Step(tables: Tables, outcome: Outcome)

  const ORDER_SHELF_LIFE_DAYS: int := 365

  /** `if batch_id:` — an absent id and the id 0 both select no batch. */
  predicate NamesBatch(item: LineItem)
  {
    item.batchId.Some? && item.batchId.value != 0
  }

  function OrderNote(sourceId: string): string { "Order #" + sourceId }

  function PrescriptionNote(sourceId: string): string { "Prescription #" + sourceId }

  function FifoNote(sourceId: string): string { "Dispensed for prescription #" + sourceId }

  /** `f"ORD-{source_id}-"`, the prefix an order's batches share. */
  function OrderBatchPrefix(sourceId: string): string { "ORD-" + sourceId + "-" }

  /** `f"ORD-{source_id}-{medicine_id}"`, the number of a batch an order creates. */
  function OrderBatchNumber(sourceId: string, m: MedicineId): (r: string)
    ensures StartsWith(r, OrderBatchPrefix(sourceId))
  {
    StartsWithConcat(OrderBatchPrefix(sourceId), NatToString(m));
    OrderBatchPrefix(sourceId) + NatToString(m)
  }

  predicate IsOrderBatchOf(bs: map<BatchId, Batch>, id: BatchId, m: MedicineId, prefix: string)
  {
    id in bs && bs[id].medicine == m && StartsWith(bs[id].batchNumber, prefix)
  }

  /** `Batch.objects.filter(medicine=m, batch_number__startswith=prefix).first()`:
      the lowest id in `[lo, n)` that matches. */
  function FindOrderBatch(bs: map<BatchId, Batch>, m: MedicineId, prefix: string, lo: nat, n: nat): (r: Option<BatchId>)
    ensures r.Some? ==> lo <= r.value < n && IsOrderBatchOf(bs, r.value, m, prefix)
    ensures r.Some? ==> forall id :: lo <= id < r.value ==> !IsOrderBatchOf(bs, id, m, prefix)
    ensures r.None? ==> forall id :: lo <= id < n ==> !IsOrderBatchOf(bs, id, m, prefix)
    decreases n - lo
  {
    if lo >= n then None
    else if IsOrderBatchOf(bs, lo, m, prefix) then Some(lo)
    else FindOrderBatch(bs, m, prefix, lo + 1, n)
  }

  /** `batch.quantity += quantity; batch.save()` followed by the log row;
      a result below zero is refused by the database. */
  function Credit(t: Tables, bid: BatchId, q: int, entry: LogEntry): (s: Step)
    requires bid in t.batches
  {
    var b := t.batches[bid];
    if b.quantity + q < 0 then Step(t, Failure(ServerFailure(NegativeStockRejected)))
    else Step(t.(batches := t.batches[bid := b.(quantity := b.quantity + q)], logs := t.logs + [entry]), Success)
  }

  /** Order receipt (views.py:172-199, 269-277). */
  function ReceiveItem(t: Tables, req: Request, item: LineItem): Step
    requires item.medicineId in t.medicines
    requires NamesBatch(item) ==> item.batchId.value in t.batches
  {
    var m := item.medicineId;
    var q := item.quantity;
    if NamesBatch(item) then
      var bid := item.batchId.value;
      Credit(t, bid, q, LogEntry(m, Some(bid), Add, q, req.actor, OrderNote(req.sourceId)))
    else
      match FindOrderBatch(t.batches, m, OrderBatchPrefix(req.sourceId), 0, t.nextBatchId)
      case Some(bid) =>
        Credit(t, bid, q, LogEntry(m, Some(bid), Add, q, req.actor, OrderNote(req.sourceId)))
      case None =>
        if q < 0 then Step(t, Failure(ServerFailure(NegativeStockRejected)))
        else
          var bid := t.nextBatchId;
          var expiry := if item.expirationDate.Some? then item.expirationDate.value
                        else req.today + ORDER_SHELF_LIFE_DAYS;
          var cost := if item.costPerUnit.Some? then item.costPerUnit.value
                      else t.medicines[m].pricePerUnit;
          var b := Batch(m, OrderBatchNumber(req.sourceId, m), q, expiry, cost);
          Step(t.(batches := t.batches[bid := b], nextBatchId := bid + 1,
                  logs := t.logs + [LogEntry(m, Some(bid), Add, q, req.actor, OrderNote(req.sourceId))]),
               Success)
  }

  /** Dispense from a named batch (views.py:255-267, 269-277). */
  function DispenseExact(t: Tables, req: Request, item: LineItem): Step
    requires NamesBatch(item) && item.batchId.value in t.batches
  {
    var bid := item.batchId.value;
    var b := t.batches[bid];
    var q := item.quantity;
    if b.quantity < q then Step(t, Failure(InsufficientBatchStock(b.batchNumber)))
    else
      Step(t.(batches := t.batches[bid := b.(quantity := b.quantity - q)],
              logs := t.logs + [LogEntry(item.medicineId, Some(bid), Dispense, -q, req.actor, PrescriptionNote(req.sourceId))]),
           Success)
  }

  // ---------------------------------------------------------------------
  // FIFO-by-expiry order

  ghost predicate Distinct(s: seq<BatchId>)
  {
    forall i, j :: 0 <= i < j < |s| ==> s[i] != s[j]
  }

  predicate IsEligible(bs: map<BatchId, Batch>, id: BatchId, m: MedicineId)
  {
    id in bs && bs[id].medicine == m && bs[id].quantity > 0
  }

  /** `Batch.objects.filter(medicine=m, quantity__gt=0)`, in id order. */
  function EligibleIds(bs: map<BatchId, Batch>, m: MedicineId, n: nat): (r: seq<BatchId>)
    ensures forall i :: 0 <= i < |r| ==> r[i] < n && IsEligible(bs, r[i], m)
    ensures forall id: BatchId :: id < n && IsEligible(bs, id, m) ==> id in r
    ensures forall i, j :: 0 <= i < j < |r| ==> r[i] < r[j]
    decreases n
  {
    if n == 0 then []
    else EligibleIds(bs, m, n - 1) + (if IsEligible(bs, n - 1, m) then [n - 1] else [])
  }

  /** `.order_by('expiration_date')`. The database leaves the order of
      equal expiry dates open; the model breaks ties by id. */
  predicate Before(bs: map<BatchId, Batch>, a: BatchId, b: BatchId)
    requires a in bs && b in bs
  {
    bs[a].expirationDate < bs[b].expirationDate ||
    (bs[a].expirationDate == bs[b].expirationDate && a < b)
  }

  ghost predicate AllIn(bs: map<BatchId, Batch>, s: seq<BatchId>)
  {
    forall i :: 0 <= i < |s| ==> s[i] in bs
  }

  ghost predicate StrictlySorted(bs: map<BatchId, Batch>, s: seq<BatchId>)
    requires AllIn(bs, s)
  {
    forall i, j :: 0 <= i < j < |s| ==> Before(bs, s[i], s[j])
  }

  function InsertByExpiry(bs: map<BatchId, Batch>, x: BatchId, s: seq<BatchId>): (r: seq<BatchId>)
    requires x in bs && AllIn(bs, s)
    ensures multiset(r) == multiset(s) + multiset{x}
    ensures AllIn(bs, r)
  {
    if s == [] then [x]
    else if Before(bs, x, s[0]) then [x] + s
    else
      assert s == [s[0]] + s[1..];
      [s[0]] + InsertByExpiry(bs, x, s[1..])
  }

  function SortByExpiry(bs: map<BatchId, Batch>, ids: seq<BatchId>): (r: seq<BatchId>)
    requires AllIn(bs, ids)
    ensures multiset(r) == multiset(ids)
    ensures AllIn(bs, r)
  {
    if ids == [] then []
    else
      assert ids == [ids[0]] + ids[1..];
      InsertByExpiry(bs, ids[0], SortByExpiry(bs, ids[1..]))
  }

  /** The order in which the FIFO walk visits the batches of `m`. */
  function FifoOrder(bs: map<BatchId, Batch>, m: MedicineId, n: nat): (r: seq<BatchId>)
    ensures AllIn(bs, r)
  {
    SortByExpiry(bs, EligibleIds(bs, m, n))
  }

  // ---------------------------------------------------------------------
  // The FIFO walk

  datatype Walked = Walked(batches: map<BatchId, Batch>, logs: seq<LogEntry>, remaining: int)

  /** The loop of views.py:210-246 over `order`, demand `remaining`. */
  function Walk(bs: map<BatchId, Batch>, order: seq<BatchId>, remaining: int,
                m: MedicineId, actor: string, note: string): (w: Walked)
    requires AllIn(bs, order)
    ensures w.batches.Keys == bs.Keys
    decreases |order|
  {
    if order == [] || remaining <= 0 then Walked(bs, [], remaining)
    else
      var b := bs[order[0]];
      var taken := if b.quantity >= remaining then remaining else b.quantity;
      var rest := Walk(bs[order[0] := b.(quantity := b.quantity - taken)], order[1..], remaining - taken, m, actor, note);
      Walked(rest.batches, [LogEntry(m, Some(order[0]), Dispense, -taken, actor, note)] + rest.logs, rest.remaining)
  }

  /** One step of the walk from position `i` of the order. */
  lemma WalkUnfold(bs: map<BatchId, Batch>, order: seq<BatchId>, i: nat, remaining: int,
                   m: MedicineId, actor: string, note: string)
    requires i < |order| && AllIn(bs, order[i..]) && remaining > 0
    ensures var b := bs[order[i]];
      var taken := if b.quantity >= remaining then remaining else b.quantity;
      var bs' := bs[order[i] := b.(quantity := b.quantity - taken)];
      && AllIn(bs', order[i + 1..])
      && Walk(bs, order[i..], remaining, m, actor, note) ==
           var rest := Walk(bs', order[i + 1..], remaining - taken, m, actor, note);
           Walked(rest.batches, [LogEntry(m, Some(order[i]), Dispense, -taken, actor, note)] + rest.logs, rest.remaining)
  {
    assert order[i..][0] == order[i] && order[i..][1..] == order[i + 1..];
    AllInTail(bs, order[i..], bs);
  }

  /** The loop invariant of an in-place walk carried over one visited
      batch: the whole walk is what has been logged so far followed by
      the walk of the rest of the order. */
  lemma WalkAdvance(bs: map<BatchId, Batch>, order: seq<BatchId>, i: nat, remaining: int,
                    taken: int, bs': map<BatchId, Batch>, e: LogEntry,
                    m: MedicineId, actor: string, note: string, done: seq<LogEntry>, whole: Walked)
    requires i < |order| && AllIn(bs, order[i..]) && remaining > 0
    requires taken == if bs[order[i]].quantity >= remaining then remaining else bs[order[i]].quantity
    requires bs' == bs[order[i] := bs[order[i]].(quantity := bs[order[i]].quantity - taken)]
    requires e == LogEntry(m, Some(order[i]), Dispense, -taken, actor, note)
    requires whole == var rest := Walk(bs, order[i..], remaining, m, actor, note);
      Walked(rest.batches, done + rest.logs, rest.remaining)
    ensures AllIn(bs', order[i + 1..])
    ensures whole == var rest := Walk(bs', order[i + 1..], remaining - taken, m, actor, note);
      Walked(rest.batches, (done + [e]) + rest.logs, rest.remaining)
  {
    WalkUnfold(bs, order, i, remaining, m, actor, note);
    var rest := Walk(bs', order[i + 1..], remaining - taken, m, actor, note);
    assert done + ([e] + rest.logs) == (done + [e]) + rest.logs;
  }

  /** FIFO dispense (views.py:203-254). */
  function DispenseFifo(t: Tables, req: Request, item: LineItem): Step
    requires item.medicineId in t.medicines
  {
    var m := item.medicineId;
    var w := Walk(t.batches, FifoOrder(t.batches, m, t.nextBatchId), item.quantity, m, req.actor, FifoNote(req.sourceId));
    Step(t.(batches := w.batches, logs := t.logs + w.logs),
         if w.remaining > 0 then Failure(InsufficientStock(t.medicines[m].name)) else Success)
  }

  // ---------------------------------------------------------------------
  // Items

  /** One pass of the `for item in items` loop (views.py:160-288). */
  function ApplyItem(t: Tables, req: Request, item: LineItem): Step
  {
    if item.medicineId !in t.medicines then Step(t, Failure(MedicineNotFound(item.medicineId)))
    else if NamesBatch(item) && item.batchId.value !in t.batches then Step(t, Failure(BatchNotFound(item.batchId.value)))
    else match req.sourceType
      case OrderSource => ReceiveItem(t, req, item)
      case PrescriptionSource =>
        if NamesBatch(item) then DispenseExact(t, req, item) else DispenseFifo(t, req, item)
      case OtherSource(_) => Step(t, Failure(ServerFailure(ActionUnassigned)))
  }

  /** Items in order; the first failure ends the request and nothing
      done before it is undone. */
  function ApplyItems(t: Tables, req: Request, items: seq<LineItem>): Step
    decreases |items|
  {
    if items == [] then Step(t, Success)
    else
      var s := ApplyItem(t, req, items[0]);
      if s.outcome.Failure? then s else ApplyItems(s.tables, req, items[1..])
  }

  predicate MayAdjust(role: string) { role == ADMIN || role == PHARMACIST }

  /** `adjust_inventory` as a whole. */
  function Adjusted(t: Tables, req: Request, items: seq<LineItem>): Step
  {
    if !MayAdjust(req.role) then Step(t, Failure(PermissionDenied)) else ApplyItems(t, req, items)
  }

  // =====================================================================
  // Properties

  // --- order receipt ---------------------------------------------------

  /** An order item that names no batch, for a medicine with no batch of
      this order yet, creates exactly one batch `ORD-{source}-{medicine}`
      holding the item quantity, with the default expiry and cost unless
      the item gives them, and logs one ADD of +quantity against it. */
  lemma ReceiveCreatesOrderBatch(t: Tables, req: Request, item: LineItem)
    requires item.medicineId in t.medicines && !NamesBatch(item)
    requires forall id :: id in t.batches ==> id < t.nextBatchId
    requires forall id :: id in t.batches && t.batches[id].medicine == item.medicineId ==>
      !StartsWith(t.batches[id].batchNumber, OrderBatchPrefix(req.sourceId))
    requires item.quantity >= 0
    ensures var s := ReceiveItem(t, req, item);
      var bid := t.nextBatchId;
      && s.outcome == Success
      && bid !in t.batches
      && s.tables.batches.Keys == t.batches.Keys + {bid}
      && (forall id :: id in t.batches ==> s.tables.batches[id] == t.batches[id])
      && s.tables.batches[bid].medicine == item.medicineId
      && s.tables.batches[bid].batchNumber == OrderBatchNumber(req.sourceId, item.medicineId)
      && s.tables.batches[bid].quantity == item.quantity
      && s.tables.batches[bid].expirationDate ==
           (if item.expirationDate.Some? then item.expirationDate.value else req.today + 365)
      && s.tables.batches[bid].costPerUnit ==
           (if item.costPerUnit.Some? then item.costPerUnit.value else t.medicines[item.medicineId].pricePerUnit)
      && s.tables.logs == t.logs + [LogEntry(item.medicineId, Some(bid), Add, item.quantity, req.actor, OrderNote(req.sourceId))]
  {
    var r := FindOrderBatch(t.batches, item.medicineId, OrderBatchPrefix(req.sourceId), 0, t.nextBatchId);
    if r.Some? {
      assert false;
    }
  }

  /** An order item that names a batch, or whose medicine already has a
      batch of this order, adds the quantity to that batch, creates no
      batch and logs one ADD of +quantity; it fails, changing nothing,
      only when the batch would go below zero. */
  lemma ReceiveIncrementsExistingBatch(t: Tables, req: Request, item: LineItem, target: BatchId)
    requires item.medicineId in t.medicines
    requires forall id :: id in t.batches ==> id < t.nextBatchId
    requires NamesBatch(item) ==> item.batchId.value in t.batches
    requires target == (if NamesBatch(item) then item.batchId.value
                        else var f := FindOrderBatch(t.batches, item.medicineId, OrderBatchPrefix(req.sourceId), 0, t.nextBatchId);
                             if f.Some? then f.value else t.nextBatchId)
    requires target in t.batches
    ensures var s := ReceiveItem(t, req, item);
      && s.tables.batches.Keys == t.batches.Keys
      && s.tables.nextBatchId == t.nextBatchId
      && (s.outcome == Success <==> t.batches[target].quantity + item.quantity >= 0)
      && (s.outcome == Success ==>
            && s.tables.batches[target].quantity == t.batches[target].quantity + item.quantity
            && s.tables.logs == t.logs + [LogEntry(item.medicineId, Some(target), Add, item.quantity, req.actor, OrderNote(req.sourceId))])
      && (s.outcome != Success ==> s.tables == t)
      && (forall id :: id in t.batches && id != target ==> s.tables.batches[id] == t.batches[id])
  {
    if !NamesBatch(item) {
      var f := FindOrderBatch(t.batches, item.medicineId, OrderBatchPrefix(req.sourceId), 0, t.nextBatchId);
      if f.None? {
        assert false;
      }
    }
  }

  // --- exact-batch dispense ----------------------------------------------

  /** A named batch holding less than the demand is refused with no
      change; otherwise it loses exactly the demand and one DISPENSE of
      -demand is logged. */
  lemma DispenseExactSpec(t: Tables, req: Request, item: LineItem)
    requires NamesBatch(item) && item.batchId.value in t.batches
    ensures var s := DispenseExact(t, req, item);
      var bid := item.batchId.value;
      && (t.batches[bid].quantity < item.quantity <==> s.outcome.Failure?)
      && (s.outcome.Failure? ==> s.tables == t && s.outcome.error == InsufficientBatchStock(t.batches[bid].batchNumber))
      && (s.outcome == Success ==>
            && s.tables.batches == t.batches[bid := t.batches[bid].(quantity := t.batches[bid].quantity - item.quantity)]
            && s.tables.logs == t.logs + [LogEntry(item.medicineId, Some(bid), Dispense, -item.quantity, req.actor, PrescriptionNote(req.sourceId))])
  {
  }

  // --- the FIFO order ----------------------------------------------------

  lemma {:induction false} InsertByExpirySorted(bs: map<BatchId, Batch>, x: BatchId, s: seq<BatchId>)
    requires x in bs && AllIn(bs, s) && x !in s
    requires StrictlySorted(bs, s)
    ensures StrictlySorted(bs, InsertByExpiry(bs, x, s))
  {
    if s != [] && !Before(bs, x, s[0]) {
      var tail := InsertByExpiry(bs, x, s[1..]);
      assert forall i :: 0 <= i < |s[1..]| ==> s[1..][i] == s[i + 1];
      InsertByExpirySorted(bs, x, s[1..]);
      assert Before(bs, s[0], x) by { assert x != s[0]; }
      forall k | 0 <= k < |tail| ensures Before(bs, s[0], tail[k]) {
        assert tail[k] in multiset(tail);
        if tail[k] != x {
          assert tail[k] in multiset(s[1..]);
          var i :| 0 <= i < |s[1..]| && s[1..][i] == tail[k];
        }
      }
      var r := [s[0]] + tail;
      forall i, j | 0 <= i < j < |r| ensures Before(bs, r[i], r[j]) {
        if i > 0 { assert r[i] == tail[i - 1] && r[j] == tail[j - 1]; }
        else { assert r[j] == tail[j - 1]; }
      }
    }
  }

  lemma {:induction false} SortByExpirySorted(bs: map<BatchId, Batch>, ids: seq<BatchId>)
    requires AllIn(bs, ids) && Distinct(ids)
    ensures StrictlySorted(bs, SortByExpiry(bs, ids))
  {
    if ids != [] {
      var rest := SortByExpiry(bs, ids[1..]);
      DistinctTail(ids);
      AllInTail(bs, ids, bs);
      SortByExpirySorted(bs, ids[1..]);
      assert ids[0] !in multiset(rest);
      InsertByExpirySorted(bs, ids[0], rest);
    }
  }

  function SumQ(bs: map<BatchId, Batch>, ids: seq<BatchId>): nat
    requires AllIn(bs, ids)
  {
    if ids == [] then 0 else bs[ids[0]].quantity + SumQ(bs, ids[1..])
  }

  lemma {:induction false} SumQAppend(bs: map<BatchId, Batch>, a: seq<BatchId>, b: seq<BatchId>)
    requires AllIn(bs, a) && AllIn(bs, b)
    ensures AllIn(bs, a + b) && SumQ(bs, a + b) == SumQ(bs, a) + SumQ(bs, b)
  {
    if a != [] {
      assert (a + b)[1..] == a[1..] + b;
      SumQAppend(bs, a[1..], b);
    } else {
      assert a + b == b;
    }
  }

  lemma {:induction false} SumQInsert(bs: map<BatchId, Batch>, x: BatchId, s: seq<BatchId>)
    requires x in bs && AllIn(bs, s)
    ensures SumQ(bs, InsertByExpiry(bs, x, s)) == bs[x].quantity + SumQ(bs, s)
  {
    if s != [] && !Before(bs, x, s[0]) {
      SumQInsert(bs, x, s[1..]);
    }
  }

  lemma {:induction false} SumQSort(bs: map<BatchId, Batch>, ids: seq<BatchId>)
    requires AllIn(bs, ids)
    ensures SumQ(bs, SortByExpiry(bs, ids)) == SumQ(bs, ids)
  {
    if ids != [] {
      SumQSort(bs, ids[1..]);
      SumQInsert(bs, ids[0], SortByExpiry(bs, ids[1..]));
    }
  }

  lemma {:induction false} SumQEligible(bs: map<BatchId, Batch>, m: MedicineId, n: nat)
    ensures SumQ(bs, EligibleIds(bs, m, n)) == TotalQuantity(BatchesOf(bs, m, n))
  {
    if n > 0 {
      var k: nat := n - 1;
      var prev := EligibleIds(bs, m, k);
      var tail: seq<BatchId> := if IsEligible(bs, k, m) then [k] else [];
      assert EligibleIds(bs, m, n) == prev + tail;
      assert AllIn(bs, tail);
      assert SumQ(bs, tail) == (if k in bs && bs[k].medicine == m then bs[k].quantity else 0);
      SumQEligible(bs, m, k);
      SumQAppend(bs, prev, tail);
      TotalOfBatchesOfStep(bs, m, k);
    }
  }

  lemma SortedFacts(bs: map<BatchId, Batch>, order: seq<BatchId>)
    requires AllIn(bs, order) && StrictlySorted(bs, order)
    ensures Distinct(order)
    ensures forall i, j :: 0 <= i < j < |order| ==> bs[order[i]].expirationDate <= bs[order[j]].expirationDate
  {
    forall i, j | 0 <= i < j < |order|
      ensures order[i] != order[j] && bs[order[i]].expirationDate <= bs[order[j]].expirationDate
    {
      assert Before(bs, order[i], order[j]);
    }
  }

  lemma SameElements(a: seq<BatchId>, b: seq<BatchId>)
    requires multiset(a) == multiset(b)
    ensures forall id :: id in a <==> id in b
  {
    forall id ensures id in a <==> id in b {
      assert id in a <==> id in multiset(a);
      assert id in b <==> id in multiset(b);
    }
  }

  /** The FIFO walk visits exactly the batches of the medicine that hold
      stock, each once, earliest expiry first, and together they hold
      the medicine's whole `total_quantity`. */
  lemma FifoOrderSpec(bs: map<BatchId, Batch>, m: MedicineId, n: nat)
    ensures var order := FifoOrder(bs, m, n);
      && (forall id: BatchId :: id in order <==> id < n && IsEligible(bs, id, m))
      && Distinct(order)
      && (forall i, j :: 0 <= i < j < |order| ==> bs[order[i]].expirationDate <= bs[order[j]].expirationDate)
      && SumQ(bs, order) == TotalQuantity(BatchesOf(bs, m, n))
  {
    var ids := EligibleIds(bs, m, n);
    var order := FifoOrder(bs, m, n);
    assert Distinct(ids) by {
      forall i, j | 0 <= i < j < |ids| ensures ids[i] != ids[j] { assert ids[i] < ids[j]; }
    }
    SortByExpirySorted(bs, ids);
    SortedFacts(bs, order);
    SameElements(order, ids);
    forall id: BatchId ensures id in ids <==> id < n && IsEligible(bs, id, m) {
      if id in ids {
        var i :| 0 <= i < |ids| && ids[i] == id;
      }
    }
    SumQSort(bs, ids);
    SumQEligible(bs, m, n);
  }

  // --- the FIFO walk -----------------------------------------------------

  lemma DistinctTail(s: seq<BatchId>)
    requires |s| > 0 && Distinct(s)
    ensures Distinct(s[1..]) && s[0] !in s[1..]
  {
    assert forall i :: 0 <= i < |s[1..]| ==> s[1..][i] == s[i + 1];
  }

  lemma AllInTail(bs: map<BatchId, Batch>, s: seq<BatchId>, bs': map<BatchId, Batch>)
    requires |s| > 0 && AllIn(bs, s) && bs'.Keys == bs.Keys
    ensures AllIn(bs', s[1..])
  {
    assert forall i :: 0 <= i < |s[1..]| ==> s[1..][i] == s[i + 1];
  }

  /** The walk touches a prefix of the order: the j-th log entry is a
      DISPENSE against the j-th batch whose quantity is exactly the
      change of that batch, and never adds stock. */
  lemma {:induction false} WalkShape(bs: map<BatchId, Batch>, order: seq<BatchId>, remaining: int,
                                     m: MedicineId, actor: string, note: string)
    requires AllIn(bs, order) && Distinct(order)
    ensures var w := Walk(bs, order, remaining, m, actor, note);
      && |w.logs| <= |order|
      && (forall j :: 0 <= j < |w.logs| ==>
            && w.logs[j] == LogEntry(m, Some(order[j]), Dispense, w.logs[j].quantity, actor, note)
            && w.logs[j].quantity <= 0
            && w.batches[order[j]].quantity == bs[order[j]].quantity + w.logs[j].quantity
            && w.batches[order[j]] == bs[order[j]].(quantity := w.batches[order[j]].quantity))
    decreases |order|
  {
    if order != [] && remaining > 0 {
      var b := bs[order[0]];
      var taken := if b.quantity >= remaining then remaining else b.quantity;
      var bs' := bs[order[0] := b.(quantity := b.quantity - taken)];
      DistinctTail(order);
      AllInTail(bs, order, bs');
      WalkShape(bs', order[1..], remaining - taken, m, actor, note);
      WalkUntouched(bs', order[1..], remaining - taken, m, actor, note);
      var w := Walk(bs, order, remaining, m, actor, note);
      var rest := Walk(bs', order[1..], remaining - taken, m, actor, note);
      assert w.batches == rest.batches;
      assert w.logs == [LogEntry(m, Some(order[0]), Dispense, -taken, actor, note)] + rest.logs;
      assert w.batches[order[0]] == bs'[order[0]];
      forall j | 1 <= j < |w.logs|
        ensures && w.logs[j] == LogEntry(m, Some(order[j]), Dispense, w.logs[j].quantity, actor, note)
                && w.logs[j].quantity <= 0
                && w.batches[order[j]].quantity == bs[order[j]].quantity + w.logs[j].quantity
                && w.batches[order[j]] == bs[order[j]].(quantity := w.batches[order[j]].quantity)
      {
        assert w.logs[j] == rest.logs[j - 1];
        assert order[j] == order[1..][j - 1];
        assert order[j] in order[1..];
        assert bs'[order[j]] == bs[order[j]];
      }
    }
  }

  /** Batches after the touched prefix and batches outside the order
      keep their rows. */
  lemma {:induction false} WalkUntouched(bs: map<BatchId, Batch>, order: seq<BatchId>, remaining: int,
                                         m: MedicineId, actor: string, note: string)
    requires AllIn(bs, order) && Distinct(order)
    ensures var w := Walk(bs, order, remaining, m, actor, note);
      && (forall j :: |w.logs| <= j < |order| ==> w.batches[order[j]] == bs[order[j]])
      && (forall id :: id in bs && id !in order ==> w.batches[id] == bs[id])
    decreases |order|
  {
    if order != [] && remaining > 0 {
      var b := bs[order[0]];
      var taken := if b.quantity >= remaining then remaining else b.quantity;
      var bs' := bs[order[0] := b.(quantity := b.quantity - taken)];
      DistinctTail(order);
      AllInTail(bs, order, bs');
      WalkUntouched(bs', order[1..], remaining - taken, m, actor, note);
      var w := Walk(bs, order, remaining, m, actor, note);
      var rest := Walk(bs', order[1..], remaining - taken, m, actor, note);
      assert w.batches == rest.batches;
      assert |w.logs| == 1 + |rest.logs|;
      forall j | |w.logs| <= j < |order|
        ensures w.batches[order[j]] == bs[order[j]]
      {
        assert order[j] == order[1..][j - 1];
        assert order[j] in order[1..];
      }
      forall id | id in bs && id !in order ensures w.batches[id] == bs[id] {
        assert id !in order[1..] && id != order[0];
      }
    }
  }

  /** The demand left over: zero when the visited batches hold enough,
      otherwise the true shortfall; and the log entries sum to minus the
      amount taken. */
  lemma {:induction false} WalkAmounts(bs: map<BatchId, Batch>, order: seq<BatchId>, remaining: int,
                                       m: MedicineId, actor: string, note: string)
    requires AllIn(bs, order) && Distinct(order) && remaining > 0
    ensures var w := Walk(bs, order, remaining, m, actor, note);
      && w.remaining == (if SumQ(bs, order) >= remaining then 0 else remaining - SumQ(bs, order))
      && LogSum(w.logs) == w.remaining - remaining
    decreases |order|
  {
    if order != [] {
      var b := bs[order[0]];
      var taken := if b.quantity >= remaining then remaining else b.quantity;
      var bs' := bs[order[0] := b.(quantity := b.quantity - taken)];
      DistinctTail(order);
      AllInTail(bs, order, bs');
      SumQUnchanged(bs, bs', order[1..]);
      if remaining - taken > 0 {
        WalkAmounts(bs', order[1..], remaining - taken, m, actor, note);
      }
    }
  }

  function LogSum(logs: seq<LogEntry>): int
  {
    if logs == [] then 0 else logs[0].quantity + LogSum(logs[1..])
  }

  lemma {:induction false} SumQUnchanged(bs: map<BatchId, Batch>, bs': map<BatchId, Batch>, s: seq<BatchId>)
    requires AllIn(bs, s) && AllIn(bs', s)
    requires forall i :: 0 <= i < |s| ==> bs'[s[i]].quantity == bs[s[i]].quantity
    ensures SumQ(bs', s) == SumQ(bs, s)
  {
    if s != [] {
      assert forall i :: 0 <= i < |s[1..]| ==> s[1..][i] == s[i + 1];
      SumQUnchanged(bs, bs', s[1..]);
    }
  }

  /** Every touched batch but the last gives up all it holds; when the
      demand is not met, every batch of the order does. Each entry takes
      something, and a non-empty order is always touched. */
  lemma {:induction false} WalkDrains(bs: map<BatchId, Batch>, order: seq<BatchId>, remaining: int,
                                      m: MedicineId, actor: string, note: string)
    requires AllIn(bs, order) && Distinct(order) && remaining > 0
    requires forall i :: 0 <= i < |order| ==> bs[order[i]].quantity > 0
    ensures var w := Walk(bs, order, remaining, m, actor, note);
      && |w.logs| <= |order|
      && (|order| > 0 ==> |w.logs| > 0)
      && (forall j :: 0 <= j < |w.logs| ==> w.logs[j].quantity < 0)
      && (forall j :: 0 <= j < |w.logs| - 1 ==> w.logs[j].quantity + bs[order[j]].quantity == 0)
      && (w.remaining > 0 ==> |w.logs| == |order|)
      && (w.remaining > 0 ==> forall j :: 0 <= j < |order| ==> w.logs[j].quantity + bs[order[j]].quantity == 0)
    decreases |order|
  {
    if order != [] {
      var b := bs[order[0]];
      var taken := if b.quantity >= remaining then remaining else b.quantity;
      var bs' := bs[order[0] := b.(quantity := b.quantity - taken)];
      DistinctTail(order);
      AllInTail(bs, order, bs');
      var w := Walk(bs, order, remaining, m, actor, note);
      var rest := Walk(bs', order[1..], remaining - taken, m, actor, note);
      assert w.logs == [LogEntry(m, Some(order[0]), Dispense, -taken, actor, note)] + rest.logs;
      if remaining - taken > 0 {
        forall i | 0 <= i < |order[1..]| ensures bs'[order[1..][i]] == bs[order[1..][i]] {
          assert order[1..][i] == order[i + 1];
        }
        WalkDrains(bs', order[1..], remaining - taken, m, actor, note);
        assert w.remaining == rest.remaining;
        forall j | 1 <= j < |w.logs|
          ensures w.logs[j] == rest.logs[j - 1] && order[j] == order[1..][j - 1]
          ensures bs'[order[j]] == bs[order[j]]
        {
          assert order[j] in order[1..];
        }
      }
    }
  }

  /** The zeroing read off the batches: every touched batch but the
      last is left empty, and when the demand is not met every batch of
      the order is. */
  lemma WalkEmpties(bs: map<BatchId, Batch>, order: seq<BatchId>, remaining: int,
                    m: MedicineId, actor: string, note: string)
    requires AllIn(bs, order) && Distinct(order) && remaining > 0
    requires forall i :: 0 <= i < |order| ==> bs[order[i]].quantity > 0
    ensures var w := Walk(bs, order, remaining, m, actor, note);
      && |w.logs| <= |order|
      && (forall j :: 0 <= j < |w.logs| - 1 ==> w.batches[order[j]].quantity == 0)
      && (w.remaining > 0 ==> forall id :: id in order ==> w.batches[id].quantity == 0)
  {
    WalkShape(bs, order, remaining, m, actor, note);
    WalkUntouched(bs, order, remaining, m, actor, note);
    WalkDrains(bs, order, remaining, m, actor, note);
    var w := Walk(bs, order, remaining, m, actor, note);
    forall id | id in order && w.remaining > 0 ensures w.batches[id].quantity == 0 {
      var j :| 0 <= j < |order| && order[j] == id;
    }
  }

  /** The sum of the log deltas recorded against batch `id`. */
  function LogDelta(logs: seq<LogEntry>, id: BatchId): int
  {
    if logs == [] then 0
    else (if logs[0].batch == Some(id) then logs[0].quantity else 0) + LogDelta(logs[1..], id)
  }

  lemma {:induction false} LogDeltaAppend(a: seq<LogEntry>, b: seq<LogEntry>, id: BatchId)
    ensures LogDelta(a + b, id) == LogDelta(a, id) + LogDelta(b, id)
  {
    if a == [] {
      assert a + b == b;
    } else {
      assert (a + b)[1..] == a[1..] + b;
      LogDeltaAppend(a[1..], b, id);
    }
  }

  /** Conservation for the walk: every batch's new quantity is its old
      quantity plus the deltas the walk logged against it. Holds for any
      order. */
  lemma {:induction false} WalkConserves(bs: map<BatchId, Batch>, order: seq<BatchId>, remaining: int,
                                         m: MedicineId, actor: string, note: string)
    requires AllIn(bs, order)
    ensures var w := Walk(bs, order, remaining, m, actor, note);
      forall id :: id in bs ==> w.batches[id].quantity == bs[id].quantity + LogDelta(w.logs, id)
    decreases |order|
  {
    if order != [] && remaining > 0 {
      var b := bs[order[0]];
      var taken := if b.quantity >= remaining then remaining else b.quantity;
      var bs' := bs[order[0] := b.(quantity := b.quantity - taken)];
      AllInTail(bs, order, bs');
      WalkConserves(bs', order[1..], remaining - taken, m, actor, note);
      var w := Walk(bs, order, remaining, m, actor, note);
      var rest := Walk(bs', order[1..], remaining - taken, m, actor, note);
      var e0 := LogEntry(m, Some(order[0]), Dispense, -taken, actor, note);
      assert w.logs == [e0] + rest.logs && w.batches == rest.batches;
      forall id | id in bs ensures w.batches[id].quantity == bs[id].quantity + LogDelta(w.logs, id) {
        LogDeltaAppend([e0], rest.logs, id);
        assert LogDelta([e0], id) == bs'[id].quantity - bs[id].quantity;
      }
    }
  }

  /** Every entry the walk writes is a DISPENSE row of the medicine
      against a batch of the table, and the walk changes no batch's
      medicine or number. Holds for any order. */
  lemma {:induction false} WalkKeepsRows(bs: map<BatchId, Batch>, order: seq<BatchId>, remaining: int,
                                         m: MedicineId, actor: string, note: string)
    requires AllIn(bs, order)
    ensures var w := Walk(bs, order, remaining, m, actor, note);
      && (forall e :: e in w.logs ==> e.batch.Some? && e.batch.value in bs && e.medicine == m && e.action == Dispense)
      && (forall id :: id in bs ==> w.batches[id].medicine == bs[id].medicine && w.batches[id].batchNumber == bs[id].batchNumber)
    decreases |order|
  {
    if order != [] && remaining > 0 {
      var b := bs[order[0]];
      var taken := if b.quantity >= remaining then remaining else b.quantity;
      var bs' := bs[order[0] := b.(quantity := b.quantity - taken)];
      AllInTail(bs, order, bs');
      WalkKeepsRows(bs', order[1..], remaining - taken, m, actor, note);
      var w := Walk(bs, order, remaining, m, actor, note);
      var rest := Walk(bs', order[1..], remaining - taken, m, actor, note);
      var e0 := LogEntry(m, Some(order[0]), Dispense, -taken, actor, note);
      assert w.logs == [e0] + rest.logs && w.batches == rest.batches;
      forall e | e in w.logs ensures e.batch.Some? && e.batch.value in bs && e.medicine == m && e.action == Dispense {
        if e != e0 {
          assert e in rest.logs;
        }
      }
    }
  }

  /** FIFO dispense fails exactly when the demand exceeds the medicine's
      `total_quantity`; on failure every batch of the medicine holding
      stock has been emptied and logged (no rollback), and on success
      the log entries of the walk add up to minus the demand. */
  lemma FifoOutcome(t: Tables, req: Request, item: LineItem)
    requires item.medicineId in t.medicines && item.quantity > 0
    ensures var s := DispenseFifo(t, req, item);
      var m := item.medicineId;
      var total := TotalQuantity(BatchesOf(t.batches, m, t.nextBatchId));
      && (s.outcome.Failure? <==> item.quantity > total)
      && (s.outcome.Failure? ==>
            && s.outcome.error == InsufficientStock(t.medicines[m].name)
            && (forall id: BatchId :: id < t.nextBatchId && IsEligible(t.batches, id, m) ==> s.tables.batches[id].quantity == 0)
            && LogSum(s.tables.logs[|t.logs|..]) + total == 0)
      && (s.outcome == Success ==> LogSum(s.tables.logs[|t.logs|..]) == -item.quantity)
  {
    var m := item.medicineId;
    var order := FifoOrder(t.batches, m, t.nextBatchId);
    var w := Walk(t.batches, order, item.quantity, m, req.actor, FifoNote(req.sourceId));
    FifoOrderSpec(t.batches, m, t.nextBatchId);
    WalkAmounts(t.batches, order, item.quantity, m, req.actor, FifoNote(req.sourceId));
    forall i | 0 <= i < |order| ensures t.batches[order[i]].quantity > 0 {
      assert order[i] in order;
    }
    WalkEmpties(t.batches, order, item.quantity, m, req.actor, FifoNote(req.sourceId));
    var s := DispenseFifo(t, req, item);
    assert s.tables == t.(batches := w.batches, logs := t.logs + w.logs);
    assert s.tables.logs[|t.logs|..] == w.logs;
  }

  // --- items -------------------------------------------------------------

  /** Items run strictly in sequence: a prefix that succeeds is
      committed before the rest runs, and once an item fails nothing
      after it runs. */
  lemma {:induction false} ApplyItemsAppend(t: Tables, req: Request, a: seq<LineItem>, b: seq<LineItem>)
    ensures var s := ApplyItems(t, req, a);
      ApplyItems(t, req, a + b) == if s.outcome.Failure? then s else ApplyItems(s.tables, req, b)
    decreases |a|
  {
    if a == [] {
      assert a + b == b;
    } else {
      assert (a + b)[0] == a[0] && (a + b)[1..] == a[1..] + b;
      var s0 := ApplyItem(t, req, a[0]);
      if !s0.outcome.Failure? {
        ApplyItemsAppend(s0.tables, req, a[1..], b);
      }
    }
  }

  /** An item whose medicine or named batch does not exist fails with a
      404 at that item; the mutations of the items before it stay. */
  lemma NotFoundKeepsEarlierItems(t: Tables, req: Request, done: seq<LineItem>, bad: LineItem, rest: seq<LineItem>)
    requires ApplyItems(t, req, done).outcome == Success
    requires var mid := ApplyItems(t, req, done).tables;
      bad.medicineId !in mid.medicines || (NamesBatch(bad) && bad.batchId.value !in mid.batches)
    ensures var mid := ApplyItems(t, req, done).tables;
      ApplyItems(t, req, done + [bad] + rest) ==
        Step(mid, Failure(if bad.medicineId !in mid.medicines then MedicineNotFound(bad.medicineId)
                          else BatchNotFound(bad.batchId.value)))
  {
    ApplyItemsAppend(t, req, done, [bad] + rest);
    assert done + [bad] + rest == done + ([bad] + rest);
  }

  /** Stock conservation from `t` to `u`: logs are only appended, no
      batch disappears, new batches get fresh ids, every new log entry
      points at a batch of `u`, and each batch's quantity equals its old
      quantity (0 for a new batch) plus the deltas newly logged against it. */
  ghost predicate Conserves(t: Tables, u: Tables)
  {
    && |t.logs| <= |u.logs| && u.logs[..|t.logs|] == t.logs
    && t.batches.Keys <= u.batches.Keys
    && t.nextBatchId <= u.nextBatchId
    && (forall id :: id in u.batches && id !in t.batches ==> id >= t.nextBatchId)
    && (forall i :: |t.logs| <= i < |u.logs| ==> u.logs[i].batch.Some? && u.logs[i].batch.value in u.batches)
    && (forall id :: id in u.batches ==>
          u.batches[id].quantity == (if id in t.batches then t.batches[id].quantity else 0) + LogDelta(u.logs[|t.logs|..], id))
  }

  lemma LogDeltaNoRef(logs: seq<LogEntry>, id: BatchId)
    requires forall e :: e in logs ==> e.batch != Some(id)
    ensures LogDelta(logs, id) == 0
  {
    if logs != [] {
      assert forall e :: e in logs[1..] ==> e in logs;
      LogDeltaNoRef(logs[1..], id);
    }
  }

  lemma ConservesTrans(t: Tables, u: Tables, v: Tables)
    requires Conserves(t, u) && Conserves(u, v)
    requires forall id :: id in t.batches ==> id < t.nextBatchId
    ensures Conserves(t, v)
  {
    assert |t.logs| <= |u.logs| <= |v.logs|;
    var n1 := v.logs[|t.logs|..|u.logs|];
    var n2 := v.logs[|u.logs|..];
    assert v.logs[|t.logs|..] == n1 + n2 by {
      assert v.logs[|t.logs|..] == v.logs[|t.logs|..][..|n1|] + v.logs[|t.logs|..][|n1|..];
    }
    assert n1 == u.logs[|t.logs|..];
    forall id | id in v.batches
      ensures v.batches[id].quantity == (if id in t.batches then t.batches[id].quantity else 0) + LogDelta(v.logs[|t.logs|..], id)
    {
      LogDeltaAppend(n1, n2, id);
      if id !in u.batches {
        forall e | e in n1 ensures e.batch != Some(id) {
          var i :| 0 <= i < |n1| && n1[i] == e;
          assert e == u.logs[|t.logs| + i];
        }
        LogDeltaNoRef(n1, id);
      }
    }
  }

  lemma ConservesRefl(t: Tables)
    ensures Conserves(t, t)
  {
    assert t.logs[|t.logs|..] == [];
  }

  lemma CreditConserves(t: Tables, bid: BatchId, q: int, entry: LogEntry)
    requires bid in t.batches && entry.batch == Some(bid) && entry.quantity == q
    ensures Conserves(t, Credit(t, bid, q, entry).tables)
  {
    var u := Credit(t, bid, q, entry).tables;
    if u == t { ConservesRefl(t); }
    else {
      assert u.logs[|t.logs|..] == [entry];
    }
  }

  /** Each line item conserves stock, whatever its outcome. */
  lemma ApplyItemConserves(t: Tables, req: Request, item: LineItem)
    requires forall id :: id in t.batches ==> id < t.nextBatchId
    ensures Conserves(t, ApplyItem(t, req, item).tables)
  {
    var s := ApplyItem(t, req, item);
    if s.tables == t {
      ConservesRefl(t);
    } else if req.sourceType == OrderSource {
      var m := item.medicineId;
      var entry := LogEntry(m, if NamesBatch(item) then item.batchId else None, Add, item.quantity, req.actor, OrderNote(req.sourceId));
      if NamesBatch(item) {
        CreditConserves(t, item.batchId.value, item.quantity, LogEntry(m, item.batchId, Add, item.quantity, req.actor, OrderNote(req.sourceId)));
      } else {
        var f := FindOrderBatch(t.batches, m, OrderBatchPrefix(req.sourceId), 0, t.nextBatchId);
        if f.Some? {
          CreditConserves(t, f.value, item.quantity, LogEntry(m, f, Add, item.quantity, req.actor, OrderNote(req.sourceId)));
        } else {
          assert s.tables.logs[|t.logs|..] == [LogEntry(m, Some(t.nextBatchId), Add, item.quantity, req.actor, OrderNote(req.sourceId))];
        }
      }
    } else if NamesBatch(item) {
      assert s.tables.logs[|t.logs|..] == [s.tables.logs[|t.logs|]];
    } else {
      var m := item.medicineId;
      var order := FifoOrder(t.batches, m, t.nextBatchId);
      WalkConserves(t.batches, order, item.quantity, m, req.actor, FifoNote(req.sourceId));
      WalkKeepsRows(t.batches, order, item.quantity, m, req.actor, FifoNote(req.sourceId));
      var w := Walk(t.batches, order, item.quantity, m, req.actor, FifoNote(req.sourceId));
      assert s.tables.logs[|t.logs|..] == w.logs;
      forall i | |t.logs| <= i < |s.tables.logs|
        ensures s.tables.logs[i].batch.Some? && s.tables.logs[i].batch.value in s.tables.batches
      {
        assert s.tables.logs[i] == w.logs[i - |t.logs|];
        assert s.tables.logs[i] in w.logs;
      }
    }
  }

  /** Conservation over a whole request, including one cut short by a
      failing item: the batch quantities always equal the old quantities
      plus everything the request logged against them. */
  lemma {:induction false} ApplyItemsConserves(t: Tables, req: Request, items: seq<LineItem>)
    requires forall id :: id in t.batches ==> id < t.nextBatchId
    ensures Conserves(t, ApplyItems(t, req, items).tables)
    decreases |items|
  {
    if items == [] {
      ConservesRefl(t);
    } else {
      var s := ApplyItem(t, req, items[0]);
      ApplyItemConserves(t, req, items[0]);
      if !s.outcome.Failure? {
        assert forall id :: id in s.tables.batches ==> id < s.tables.nextBatchId;
        ApplyItemsConserves(s.tables, req, items[1..]);
        ConservesTrans(t, s.tables, ApplyItems(s.tables, req, items[1..]).tables);
      }
    }
  }

  /** An update that keeps every batch row's medicine and number, adds
      no batch, and appends log entries that resolve keeps the database
      invariants. */
  lemma InPlaceUpdateKeepsConsistent(t: Tables, u: Tables)
    requires Consistent(t)
    requires u.medicines == t.medicines && u.nextBatchId == t.nextBatchId
    requires u.batches.Keys == t.batches.Keys
    requires forall id :: id in t.batches ==>
      u.batches[id].medicine == t.batches[id].medicine && u.batches[id].batchNumber == t.batches[id].batchNumber
    requires |t.logs| <= |u.logs| && u.logs[..|t.logs|] == t.logs
    requires forall i :: |t.logs| <= i < |u.logs| ==>
      u.logs[i].medicine in u.medicines && u.logs[i].batch.Some? && u.logs[i].batch.value in u.batches
    ensures Consistent(u)
  {
    forall i | 0 <= i < |t.logs| ensures u.logs[i] == t.logs[i] {
      assert u.logs[..|t.logs|][i] == u.logs[i];
    }
  }

  /** The batch an order creates keeps the database invariants: its id
      is fresh and no batch of the medicine shares its order prefix. */
  lemma NewOrderBatchKeepsConsistent(t: Tables, req: Request, item: LineItem)
    requires Consistent(t)
    requires req.sourceType == OrderSource && item.medicineId in t.medicines && !NamesBatch(item)
    requires FindOrderBatch(t.batches, item.medicineId, OrderBatchPrefix(req.sourceId), 0, t.nextBatchId).None?
    ensures Consistent(ApplyItem(t, req, item).tables)
  {
    var u := ApplyItem(t, req, item).tables;
    if u != t {
      var m := item.medicineId;
      var bid := t.nextBatchId;
      var prefix := OrderBatchPrefix(req.sourceId);
      assert u.batches == t.batches[bid := u.batches[bid]];
      assert u.batches[bid].medicine == m;
      assert StartsWith(u.batches[bid].batchNumber, prefix);
      forall a | a in t.batches && t.batches[a].medicine == m
        ensures t.batches[a].batchNumber != u.batches[bid].batchNumber
      {
        assert !IsOrderBatchOf(t.batches, a, m, prefix);
      }
      assert UniqueBatchNumbers(u.batches);
      forall i | 0 <= i < |u.logs|
        ensures u.logs[i].medicine in u.medicines
        ensures u.logs[i].batch.Some? ==> u.logs[i].batch.value in u.batches
      {
        if i < |t.logs| { assert u.logs[i] == t.logs[i]; }
      }
    }
  }

  /** Adding to an existing batch with one log entry against it keeps
      the database invariants. */
  lemma CreditKeepsConsistent(t: Tables, bid: BatchId, q: int, entry: LogEntry)
    requires Consistent(t) && bid in t.batches
    requires entry.batch == Some(bid) && entry.medicine in t.medicines
    ensures Consistent(Credit(t, bid, q, entry).tables)
  {
    var u := Credit(t, bid, q, entry).tables;
    if u != t {
      assert u.logs == t.logs + [entry];
      InPlaceUpdateKeepsConsistent(t, u);
    }
  }

  /** The FIFO walk keeps the database invariants. */
  lemma FifoKeepsConsistent(t: Tables, req: Request, item: LineItem)
    requires Consistent(t) && item.medicineId in t.medicines
    ensures Consistent(DispenseFifo(t, req, item).tables)
  {
    var m := item.medicineId;
    var order := FifoOrder(t.batches, m, t.nextBatchId);
    var w := Walk(t.batches, order, item.quantity, m, req.actor, FifoNote(req.sourceId));
    WalkKeepsRows(t.batches, order, item.quantity, m, req.actor, FifoNote(req.sourceId));
    WalkedKeepsConsistent(t, w, m);
  }

  /** Writing back the batches and appending the entries of a walk over
      the medicine's own batches keeps the database invariants. */
  lemma WalkedKeepsConsistent(t: Tables, w: Walked, m: MedicineId)
    requires Consistent(t) && m in t.medicines
    requires w.batches.Keys == t.batches.Keys
    requires forall e :: e in w.logs ==> e.batch.Some? && e.batch.value in t.batches && e.medicine == m
    requires forall id :: id in t.batches ==>
      w.batches[id].medicine == t.batches[id].medicine && w.batches[id].batchNumber == t.batches[id].batchNumber
    ensures Consistent(t.(batches := w.batches, logs := t.logs + w.logs))
  {
    var u := t.(batches := w.batches, logs := t.logs + w.logs);
    assert u.logs[..|t.logs|] == t.logs;
    forall i | |t.logs| <= i < |u.logs|
      ensures u.logs[i].medicine in u.medicines && u.logs[i].batch.Some? && u.logs[i].batch.value in u.batches
    {
      assert u.logs[i] == w.logs[i - |t.logs|];
      assert u.logs[i] in w.logs;
    }
    InPlaceUpdateKeepsConsistent(t, u);
  }

  /** Each line item keeps the database invariants. */
  lemma ApplyItemKeepsConsistent(t: Tables, req: Request, item: LineItem)
    requires Consistent(t)
    ensures Consistent(ApplyItem(t, req, item).tables)
  {
    var m := item.medicineId;
    if m in t.medicines && !(NamesBatch(item) && item.batchId.value !in t.batches) {
      match req.sourceType {
        case OrderSource =>
          if NamesBatch(item) {
            var bid := item.batchId.value;
            CreditKeepsConsistent(t, bid, item.quantity, LogEntry(m, Some(bid), Add, item.quantity, req.actor, OrderNote(req.sourceId)));
          } else {
            var f := FindOrderBatch(t.batches, m, OrderBatchPrefix(req.sourceId), 0, t.nextBatchId);
            if f.Some? {
              CreditKeepsConsistent(t, f.value, item.quantity, LogEntry(m, f, Add, item.quantity, req.actor, OrderNote(req.sourceId)));
            } else {
              NewOrderBatchKeepsConsistent(t, req, item);
            }
          }
        case PrescriptionSource =>
          if NamesBatch(item) {
            var u := DispenseExact(t, req, item).tables;
            if u != t {
              assert |u.logs| == |t.logs| + 1 && u.logs[..|t.logs|] == t.logs;
              InPlaceUpdateKeepsConsistent(t, u);
            }
          } else {
            FifoKeepsConsistent(t, req, item);
          }
        case OtherSource(_) =>
      }
    }
  }

  /** A whole request keeps the database invariants, even when cut short. */
  lemma {:induction false} ApplyItemsKeepsConsistent(t: Tables, req: Request, items: seq<LineItem>)
    requires Consistent(t)
    ensures Consistent(ApplyItems(t, req, items).tables)
    decreases |items|
  {
    if items != [] {
      ApplyItemKeepsConsistent(t, req, items[0]);
      var s := ApplyItem(t, req, items[0]);
      if !s.outcome.Failure? {
        ApplyItemsKeepsConsistent(s.tables, req, items[1..]);
      }
    }
  }
}
