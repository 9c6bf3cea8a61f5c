/** The filesystem connector's full scan: batches, or single sends with a bounded number in flight. */
module FilesystemScan {
  import opened Lists
  import opened FullScan

  /** _is_under, on path segments. */
  predicate IsUnder(path: seq<string>, parent: seq<string>) {
    parent <= path
  }

  predicate Quarantined(path: seq<string>, quarantine: seq<seq<string>>) {
    exists q :: 0 <= q < |quarantine| && IsUnder(path, quarantine[q])
  }

  /** A file of the enumeration: its location and its normalised path. */
  datatype Item = Item(location: string, path: seq<string>)

  function OutsideQuarantine(quarantine: seq<seq<string>>): Item -> bool {
    (file: Item) => !Quarantined(file.path, quarantine)
  }

  /** The eligible files are those that no quarantine folder is, or contains. */
  lemma EligibleExactlyWhen(files: seq<Item>, quarantine: seq<seq<string>>, file: Item)
    ensures file in Filter(files, OutsideQuarantine(quarantine)) <==>
              file in files && !exists folder, rest :: folder in quarantine && file.path == folder + rest
  {
    FilterHas(files, OutsideQuarantine(quarantine));
    if exists folder, rest :: folder in quarantine && file.path == folder + rest {
      var folder, rest :| folder in quarantine && file.path == folder + rest;
      var q :| 0 <= q < |quarantine| && quarantine[q] == folder;
      assert IsUnder(file.path, quarantine[q]);
    }
    if Quarantined(file.path, quarantine) {
      var q :| 0 <= q < |quarantine| && IsUnder(file.path, quarantine[q]);
      assert quarantine[q] in quarantine && file.path == quarantine[q] + file.path[|quarantine[q]|..];
    }
  }

  /** How many of n eligible files a limit lets through: 0 means no limit, a negative one stops after the first. */
  function Taken(limit: int, n: nat): (r: nat)
    ensures r <= n
    ensures 0 < limit ==> r == if limit < n then limit else n
  {
    if limit == 0 || n == 0 then n else if limit < 1 then 1 else if limit < n then limit else n
  }

  class Scan {
    const useBatch: bool
    const size: nat
    const concurrency: nat
    /** What the core answers to the k-th single send and to the k-th batch. */
    const sendOk: nat -> bool
    const batchOk: nat -> bool

    var seen: nat
    var count: nat
    var batchErrors: nat
    var batchItems: seq<Item>
    /** The tasks of pending_single, numbered in the order of their creation. */
    var pending: set<nat>

    ghost var submitted: seq<Item>
    /** The batches sent so far, in order. */
    var batches: seq<seq<Item>>
    ghost var failed: nat

    ghost predicate Valid()
      reads this
    {
      && size >= 1 && concurrency >= 1
      && seen == |submitted| == count + failed + |pending| + |batchItems|
      && |pending| < concurrency && |batchItems| < size
      && SizedBatches(batches, size)
      && (if useBatch then
            && pending == {} && Flat(batches) + batchItems == submitted
            && count == AcceptedItems(batchOk, batches)
          else
            && batchItems == [] && batches == []
            && (forall k :: k in pending ==> k < seen)
            && Accepted(sendOk, seen) == count + OkIn(sendOk, pending))
    }

    constructor (useBatch: bool, size: nat, concurrency: nat, sendOk: nat -> bool, batchOk: nat -> bool)
      requires size >= 1 && concurrency >= 1
      ensures Valid() && this.submitted == [] && this.useBatch == useBatch && this.size == size
      ensures this.concurrency == concurrency && this.sendOk == sendOk && this.batchOk == batchOk
    {
      this.useBatch, this.size, this.concurrency := useBatch, size, concurrency;
      this.sendOk, this.batchOk := sendOk, batchOk;
      seen, count, batchErrors, batchItems, pending := 0, 0, 0, [], {};
      submitted, batches, failed := [], [], 0;
    }

    /** _flush_batch */
    method FlushBatch()
      requires useBatch && seen == |submitted| == count + failed + |batchItems| && pending == {}
      requires size >= 1 && concurrency >= 1 && |batchItems| <= size && SizedBatches(batches, size)
      requires Flat(batches) + batchItems == submitted && count == AcceptedItems(batchOk, batches)
      modifies this
      ensures Valid() && batchItems == [] && submitted == old(submitted) && seen == old(seen)
    {
      if batchItems == [] {
        return;
      }
      SendBatch(batchOk, batches, batchItems, size);
      if batchOk(|batches|) {
        count := count + |batchItems|;
      } else {
        batchErrors := batchErrors + 1;
        failed := failed + |batchItems|;
      }
      batches := batches + [batchItems];
      batchItems := [];
    }

    /** One finished task: its result is counted and it is no longer pending. */
    method CollectOne(k: nat)
      requires k in pending
      modifies this`count, this`failed, this`pending
      ensures pending == old(pending) - {k}
      ensures count + failed + |pending| == old(count + failed + |pending|)
      ensures count + OkIn(sendOk, pending) == old(count + OkIn(sendOk, pending))
    {
      RemoveTask(sendOk, pending, k);
      pending := pending - {k};
      if sendOk(k) {
        count := count + 1;
      } else {
        failed := failed + 1;
      }
    }

    /** The loop over the tasks that asyncio.wait reported done. */
    method CollectDone(done: set<nat>)
      requires done <= pending
      modifies this`count, this`failed, this`pending
      ensures pending == old(pending) - done
      ensures count + failed + |pending| == old(count + failed + |pending|)
      ensures count + OkIn(sendOk, pending) == old(count + OkIn(sendOk, pending))
    {
      var rest := done;
      while rest != {}
        invariant rest <= done && pending == old(pending) - done + rest
        invariant count + failed + |pending| == old(count + failed + |pending|)
        invariant count + OkIn(sendOk, pending) == old(count + OkIn(sendOk, pending))
        decreases |rest|
      {
        var k :| k in rest;
        CollectOne(k);
        rest := rest - {k};
      }
    }

    /** _drain_pending waiting for the first completed: any non-empty set of tasks may be done. */
    method DrainFirst(done: set<nat>)
      requires !useBatch && done <= pending && done != {} && |pending| <= concurrency
      requires size >= 1 && concurrency >= 1 && seen == |submitted| == count + failed + |pending|
      requires batchItems == [] && batches == [] && forall k :: k in pending ==> k < seen
      requires Accepted(sendOk, seen) == count + OkIn(sendOk, pending)
      modifies this`count, this`failed, this`pending
      ensures Valid()
    {
      var k :| k in done;
      RemoveTask(sendOk, pending, k);
      ghost var before := pending;
      CollectDone(done);
      Subset(pending, before - {k});
    }

    /** create_task, and the wait that keeps the sends in flight within the concurrency. */
    method Launch(pick: set<nat> -> set<nat>)
      requires !useBatch && concurrency >= 1 && size >= 1 && batchItems == [] && batches == []
      requires forall s :: s != {} ==> pick(s) <= s && pick(s) != {}
      requires 0 < seen == |submitted| == count + failed + |pending| + 1 && |pending| < concurrency
      requires forall k :: k in pending ==> k < seen - 1
      requires Accepted(sendOk, seen - 1) == count + OkIn(sendOk, pending)
      modifies this`count, this`failed, this`pending
      ensures Valid()
    {
      ghost var grown := pending + {seen - 1};
      assert grown - {seen - 1} == pending;
      RemoveTask(sendOk, grown, seen - 1);
      pending := pending + {seen - 1};
      if |pending| >= concurrency {
        DrainFirst(pick(pending));
      }
    }

    /** One pass of the loop body for a file outside quarantine; pick tells which tasks are done at the wait. */
    method Submit(item: Item, pick: set<nat> -> set<nat>)
      requires Valid() && forall s :: s != {} ==> pick(s) <= s && pick(s) != {}
      modifies this
      ensures Valid() && submitted == old(submitted) + [item]
    {
      seen := seen + 1;
      submitted := submitted + [item];
      if useBatch {
        batchItems := batchItems + [item];
        assert Flat(batches) + batchItems == submitted;
        if |batchItems| >= size {
          FlushBatch();
        }
      } else if concurrency <= 1 {
        if sendOk(seen - 1) {
          count := count + 1;
        } else {
          failed := failed + 1;
        }
      } else {
        Launch(pick);
      }
    }

    /** The last flush, and the wait for every task that is still pending. */
    method Finish()
      requires Valid()
      modifies this
      ensures Valid() && submitted == old(submitted) && seen == old(seen)
      ensures batchItems == [] && pending == {}
    {
      if useBatch {
        FlushBatch();
      } else {
        CollectDone(pending);
        assert pending == {};
      }
    }
  }

  /** The loop of full_scan_handler over the files that keep lets through. */
  method SubmitAll(scan: Scan, files: seq<Item>, keep: Item -> bool, limit: int, pick: set<nat> -> set<nat>)
    requires scan.Valid() && scan.submitted == []
    requires forall s :: s != {} ==> pick(s) <= s && pick(s) != {}
    modifies scan
    ensures scan.Valid()
    ensures var kept := Filter(files, keep); scan.submitted == kept[..Taken(limit, |kept|)]
  {
    var i, stop := 0, false;
    while i < |files| && !stop
      invariant i <= |files| && scan.Valid()
      invariant scan.submitted == Filter(files[..i], keep)
      invariant stop <==> limit != 0 && |scan.submitted| > 0 && |scan.submitted| >= limit
      invariant limit != 0 ==> |scan.submitted| <= (if limit < 1 then 1 else limit)
      decreases |files| - i
    {
      FilterNext(files, keep, i);
      if keep(files[i]) {
        scan.Submit(files[i], pick);
        stop := limit != 0 && scan.seen >= limit;
      }
      i := i + 1;
    }
    FilterPrefix(files, keep, i);
    assert files[..|files|] == files;
  }

  /**
   full_scan_handler: what is sent is the first files outside quarantine up to the limit, each once and in order;
   every one of them is counted as accepted or failed, and nothing is left over.
   */
  method FullScanRun(scan: Scan, files: seq<Item>, quarantine: seq<seq<string>>, limit: int,
                     pick: set<nat> -> set<nat>)
    requires scan.Valid() && scan.submitted == []
    requires forall s :: s != {} ==> pick(s) <= s && pick(s) != {}
    modifies scan
    ensures var eligible := Filter(files, OutsideQuarantine(quarantine));
            scan.submitted == eligible[..Taken(limit, |eligible|)]
    ensures NoRepeats(files) ==> NoRepeats(scan.submitted)
    ensures scan.seen == |scan.submitted| == scan.count + scan.failed && scan.pending == {} && scan.batchItems == []
    ensures if scan.useBatch
            then && Flat(scan.batches) == scan.submitted && SizedBatches(scan.batches, scan.size)
                 && scan.count == AcceptedItems(scan.batchOk, scan.batches)
            else scan.count == Accepted(scan.sendOk, scan.seen)
  {
    SubmitAll(scan, files, OutsideQuarantine(quarantine), limit, pick);
    if NoRepeats(files) {
      FilterNoRepeats(files, OutsideQuarantine(quarantine));
    }
    scan.Finish();
    assert scan.useBatch ==> Flat(scan.batches) + [] == Flat(scan.batches);
  }
}
