/** The S3 connector's full scan: single sends one after the other, or batches cut off by a limit. */
module S3Scan {
  import opened Lists
  import opened FullScan

  class Scan {
    const size: nat
    /** 0 when the request has no limit. */
    const limit: int
    /** What the core answers to the k-th batch. */
    const batchOk: nat -> bool

    var count: nat
    var batchItems: seq<string>
    var batches: seq<seq<string>>

    /** What holds at the head of the loop, before a key is looked at. */
    ghost predicate Valid()
      reads this
    {
      && size >= 1 && |batchItems| < size && SizedBatches(batches, size)
      && count == AcceptedItems(batchOk, batches)
      && (limit > 0 ==> count + |batchItems| <= limit)
    }

    ghost function Taken(): seq<string>
      reads this
    {
      Flat(batches) + batchItems
    }

    predicate LimitReached()
      reads this
    {
      limit != 0 && count >= limit
    }

    constructor (size: nat, limit: int, batchOk: nat -> bool)
      requires size >= 1
      ensures Valid() && Taken() == [] && batches == [] && batchItems == [] && count == 0
      ensures this.size == size && this.limit == limit && this.batchOk == batchOk
    {
      this.size, this.limit, this.batchOk := size, limit, batchOk;
      count, batchItems, batches := 0, [], [];
    }

    /** _flush_batch: the buffer is emptied before the send, so a failed batch is lost. */
    method FlushBatch()
      requires size >= 1 && |batchItems| <= size && SizedBatches(batches, size)
      requires count == AcceptedItems(batchOk, batches) && (limit > 0 ==> count + |batchItems| <= limit)
      modifies this
      ensures Valid() && Taken() == old(Taken()) && batchItems == []
      ensures batches == if old(batchItems) == [] then old(batches) else old(batches) + [old(batchItems)]
    {
      if batchItems == [] {
        return;
      }
      SendBatch(batchOk, batches, batchItems, size);
      var items := batchItems;
      batchItems := [];
      if batchOk(|batches|) {
        count := count + |items|;
      }
      batches := batches + [items];
      assert Flat(batches) + [] == Flat(batches);
    }

    /** The loop body in batch mode for a key that passes the filter. */
    method Add(key: string)
      requires Valid() && (limit > 0 ==> count + |batchItems| < limit)
      modifies this
      ensures Valid() && Taken() == old(Taken()) + [key]
      ensures limit != 0 ==> (LimitReached() && batchItems == []) || (limit > 0 && count + |batchItems| < limit)
    {
      batchItems := batchItems + [key];
      assert Flat(batches) + batchItems == old(Flat(batches) + batchItems) + [key];
      if |batchItems| >= size || (limit != 0 && count + |batchItems| >= limit) {
        FlushBatch();
      }
    }
  }

  /**
   full_scan_handler in batch mode, whatever batches fail: the batches are the matched keys in order, each in one
   batch; the scan takes them all unless the limit is reached, and with a limit it never counts more than that.
   */
  method BatchScan(scan: Scan, keys: seq<string>, matches: string -> bool)
    requires scan.Valid() && scan.batches == [] && scan.batchItems == [] && scan.count == 0
    modifies scan
    ensures SizedBatches(scan.batches, scan.size) && scan.count == AcceptedItems(scan.batchOk, scan.batches)
    ensures scan.batchItems == [] && Flat(scan.batches) <= Filter(keys, matches)
    ensures scan.LimitReached() || Flat(scan.batches) == Filter(keys, matches)
    ensures NoRepeats(keys) ==> NoRepeats(Flat(scan.batches))
    ensures scan.limit > 0 ==> scan.count <= scan.limit
    ensures scan.limit > 0 && (forall k :: 0 <= k < |scan.batches| ==> scan.batchOk(k)) ==>
              scan.count == Smaller(scan.limit, |Filter(keys, matches)|)
  {
    var i, stop := 0, false;
    while i < |keys| && !stop
      invariant i <= |keys| && scan.Valid() && scan.Taken() == Filter(keys[..i], matches)
      invariant stop ==> scan.limit != 0 && scan.LimitReached() && scan.batchItems == []
      invariant !stop && scan.limit > 0 ==> scan.count + |scan.batchItems| < scan.limit
      invariant !stop && scan.limit < 0 ==> scan.batchItems == []
      decreases |keys| - i
    {
      FilterNext(keys, matches, i);
      if matches(keys[i]) {
        scan.Add(keys[i]);
        stop := scan.LimitReached();
      }
      i := i + 1;
    }
    if scan.batchItems != [] && (scan.limit == 0 || scan.count < scan.limit) {
      scan.FlushBatch();
    }
    assert Flat(scan.batches) + [] == Flat(scan.batches);
    FilterPrefix(keys, matches, i);
    assert keys[..|keys|] == keys;
    if NoRepeats(keys) {
      FilterNoRepeats(keys, matches);
    }
    if scan.limit > 0 && (forall k :: 0 <= k < |scan.batches| ==> scan.batchOk(k)) {
      AllItemsAccepted(scan.batchOk, scan.batches);
    }
  }

  /** full_scan_handler one key at a time: it stops at the send that brings the count to the limit. */
  method SingleScan(keys: seq<string>, matches: string -> bool, limit: int, sendOk: nat -> bool)
    returns (count: nat, sent: seq<string>)
    ensures sent <= Filter(keys, matches) && count == Accepted(sendOk, |sent|)
    ensures limit == 0 || count < limit ==> sent == Filter(keys, matches)
    ensures limit > 0 ==> count <= limit && (forall k :: 0 <= k < |sent| ==> Accepted(sendOk, k) < limit)
  {
    count, sent := 0, [];
    var i, stop := 0, false;
    while i < |keys| && !stop
      invariant i <= |keys| && sent == Filter(keys[..i], matches) && count == Accepted(sendOk, |sent|)
      invariant stop ==> limit != 0 && count >= limit
      invariant limit > 0 ==> (if stop then count == limit else count < limit)
      invariant limit > 0 ==> forall k :: 0 <= k < |sent| ==> Accepted(sendOk, k) < limit
      decreases |keys| - i
    {
      FilterNext(keys, matches, i);
      if matches(keys[i]) {
        sent := sent + [keys[i]];
        if sendOk(|sent| - 1) {
          count := count + 1;
        }
        stop := limit != 0 && count >= limit;
      }
      i := i + 1;
    }
    FilterPrefix(keys, matches, i);
    assert keys[..|keys|] == keys;
  }
}
