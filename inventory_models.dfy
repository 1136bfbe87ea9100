/** The inventory schema: medicines, their stock batches and the
    inventory log, with the constraints the schema declares
    (non-negative quantities and thresholds, a unique barcode, batch
    numbers unique per medicine, a closed set of log actions) and the
    two delete rules (a medicine takes its batches and its log entries
    with it; a deleted batch leaves its log entries with no batch). */
module InventoryModels {
  import opened Base

  type MedicineId = nat
  type BatchId = nat

  /** A money amount with two decimal places; the model never computes
      with it, it only copies it. */
  datatype Decimal = Decimal(hundredths: int)

  datatype Medicine = Medicine(
    name: string,
    minQuantity: nat,
    pricePerUnit: Decimal,
    barcode: string)

  /** A received lot of one medicine. `quantity` is a PositiveIntegerField,
      hence a `nat`. */
  datatype Batch = Batch(
    medicine: MedicineId,
    batchNumber: string,
    quantity: nat,
    expirationDate: Date,
    costPerUnit: Decimal)

  datatype LogAction = Add | Remove | Dispense | Expire | Adjust

  /** One audit row: a signed quantity change (negative for removals)
      against a medicine and, while it exists, the batch it touched. */
  datatype LogEntry = LogEntry(
    medicine: MedicineId,
    batch: Option<BatchId>,
    action: LogAction,
    quantity: int,
    performedBy: string,
    notes: string)

  /** The three inventory tables. Batch ids are auto-incremented from 1
      and `nextBatchId` is the id the next created batch receives. */
  datatype Tables = Tables(
    medicines: map<MedicineId, Medicine>,
    batches: map<BatchId, Batch>,
    nextBatchId: BatchId,
    logs: seq<LogEntry>)

  const DEFAULT_MIN_QUANTITY: nat := 0

  /** `unique_together = ['medicine', 'batch_number']`. */
  ghost predicate UniqueBatchNumbers(bs: map<BatchId, Batch>)
  {
    forall a, b :: a in bs && b in bs && a != b && bs[a].medicine == bs[b].medicine ==>
      bs[a].batchNumber != bs[b].batchNumber
  }

  /** `barcode = CharField(unique=True)`. */
  ghost predicate UniqueBarcodes(ms: map<MedicineId, Medicine>)
  {
    forall a, b :: a in ms && b in ms && a != b ==> ms[a].barcode != ms[b].barcode
  }

  ghost predicate LogRefsValid(t: Tables)
  {
    forall i :: 0 <= i < |t.logs| ==>
      t.logs[i].medicine in t.medicines &&
      (t.logs[i].batch.Some? ==> t.logs[i].batch.value in t.batches)
  }

  /** The database invariants of the three tables: ids are below the
      next id, every foreign key resolves, and the uniqueness
      constraints hold. */
  ghost predicate Consistent(t: Tables)
  {
    && 1 <= t.nextBatchId
    && (forall id :: id in t.batches ==> 0 < id < t.nextBatchId)
    && (forall id :: id in t.batches ==> t.batches[id].medicine in t.medicines)
    && UniqueBatchNumbers(t.batches)
    && UniqueBarcodes(t.medicines)
    && LogRefsValid(t)
  }

  /** SET_NULL: entries that pointed at a removed batch lose the pointer. */
  function DetachBatches(logs: seq<LogEntry>, gone: set<BatchId>): (r: seq<LogEntry>)
    ensures |r| == |logs|
    ensures forall i :: 0 <= i < |logs| ==>
      r[i] == if logs[i].batch.Some? && logs[i].batch.value in gone
              then logs[i].(batch := None) else logs[i]
  {
    seq(|logs|, i requires 0 <= i < |logs| =>
      if logs[i].batch.Some? && logs[i].batch.value in gone then logs[i].(batch := None) else logs[i])
  }

  /** The log entries that do not belong to medicine `m`, in order. */
  function LogsNotOf(logs: seq<LogEntry>, m: MedicineId): (r: seq<LogEntry>)
    ensures |r| <= |logs|
    ensures forall e :: e in r <==> e in logs && e.medicine != m
  {
    if logs == [] then []
    else (if logs[0].medicine == m then [] else [logs[0]]) + LogsNotOf(logs[1..], m)
  }

  /** Deleting batch `b` (models.py: `on_delete=SET_NULL` on the log's batch). */
  function DeleteBatch(t: Tables, b: BatchId): (r: Tables)
    ensures r.batches == t.batches - {b}
    ensures r.medicines == t.medicines && r.nextBatchId == t.nextBatchId
    ensures |r.logs| == |t.logs|
    ensures forall i :: 0 <= i < |t.logs| ==>
      r.logs[i] == if t.logs[i].batch == Some(b) then t.logs[i].(batch := None) else t.logs[i]
  {
    t.(batches := t.batches - {b}, logs := DetachBatches(t.logs, {b}))
  }

  /** `medicine.batches.all()` (the reverse of `Batch.medicine`, models.py
      `related_name='batches'`): the batches of `m` among ids below `n`,
      in id order. */
  function BatchesOf(bs: map<BatchId, Batch>, m: MedicineId, n: nat): (r: seq<Batch>)
    ensures |r| <= n
    ensures forall b :: b in r ==> b.medicine == m
    ensures forall id :: id in bs && id < n && bs[id].medicine == m ==> bs[id] in r
    decreases n
  {
    if n == 0 then []
    else BatchesOf(bs, m, n - 1) + (if n - 1 in bs && bs[n - 1].medicine == m then [bs[n - 1]] else [])
  }

  /** The ids of the batches of medicine `m`. */
  function BatchIdsOf(bs: map<BatchId, Batch>, m: MedicineId): (r: set<BatchId>)
    ensures forall id :: id in r <==> id in bs && bs[id].medicine == m
  {
    set id | id in bs && bs[id].medicine == m
  }

  /** Deleting medicine `m` (models.py: CASCADE from batch and from log
      to medicine, SET_NULL from log to batch). */
  function DeleteMedicine(t: Tables, m: MedicineId): (r: Tables)
    ensures r.medicines == t.medicines - {m}
    ensures forall id :: id in r.batches <==> id in t.batches && t.batches[id].medicine != m
    ensures forall id :: id in r.batches ==> r.batches[id] == t.batches[id]
    ensures forall e :: e in r.logs ==> e.medicine != m
    ensures forall e :: e in t.logs && e.medicine != m && (e.batch.None? || e.batch.value !in BatchIdsOf(t.batches, m)) ==>
      e in r.logs
    ensures forall e :: e in t.logs && e.medicine != m && e.batch.Some? && e.batch.value in BatchIdsOf(t.batches, m) ==>
      e.(batch := None) in r.logs
    ensures r.logs == DetachBatches(LogsNotOf(t.logs, m), BatchIdsOf(t.batches, m))
    ensures r.nextBatchId == t.nextBatchId
  {
    var gone := BatchIdsOf(t.batches, m);
    var kept := LogsNotOf(t.logs, m);
    var d := DetachBatches(kept, gone);
    assert forall e :: e in kept && (e.batch.None? || e.batch.value !in gone) ==> e in d by {
      forall e | e in kept && (e.batch.None? || e.batch.value !in gone) ensures e in d {
        var j :| 0 <= j < |kept| && kept[j] == e;
        assert d[j] == e;
      }
    }
    assert forall e :: e in kept && e.batch.Some? && e.batch.value in gone ==> e.(batch := None) in d by {
      forall e | e in kept && e.batch.Some? && e.batch.value in gone ensures e.(batch := None) in d {
        var j :| 0 <= j < |kept| && kept[j] == e;
        assert d[j] == e.(batch := None);
      }
    }
    t.(medicines := t.medicines - {m},
       batches := t.batches - gone,
       logs := DetachBatches(LogsNotOf(t.logs, m), gone))
  }

  lemma DeleteBatchKeepsConsistent(t: Tables, b: BatchId)
    requires Consistent(t)
    ensures Consistent(DeleteBatch(t, b))
  {
    var r := DeleteBatch(t, b);
    forall i | 0 <= i < |r.logs|
      ensures r.logs[i].medicine in r.medicines
      ensures r.logs[i].batch.Some? ==> r.logs[i].batch.value in r.batches
    {
      assert t.logs[i].medicine in t.medicines;
    }
  }

  lemma DeleteMedicineKeepsConsistent(t: Tables, m: MedicineId)
    requires Consistent(t)
    ensures Consistent(DeleteMedicine(t, m))
  {
    var r := DeleteMedicine(t, m);
    var gone := BatchIdsOf(t.batches, m);
    var kept := LogsNotOf(t.logs, m);
    forall i | 0 <= i < |r.logs|
      ensures r.logs[i].medicine in r.medicines
      ensures r.logs[i].batch.Some? ==> r.logs[i].batch.value in r.batches
    {
      assert kept[i] in kept;
      var j :| 0 <= j < |t.logs| && t.logs[j] == kept[i];
      assert t.logs[j].medicine in t.medicines;
    }
  }
}
