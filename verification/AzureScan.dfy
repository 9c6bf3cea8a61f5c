/** The Azure connector's full scan: a buffer of tasks behind a semaphore, or batches. */
module AzureScan {
  import opened Lists
  import opened FullScan

  const BUFFER := 200

  /** The order in which tasks get the semaphore and finish: the n-th choice between them is the scheduler's. */
  datatype Schedule = Schedule(startNext: nat -> bool, pick: set<nat> -> set<nat>)

  /** The scheduler always has a pick, and only among the tasks it is given. */
  ghost predicate PicksAmong(schedule: Schedule) {
    forall s :: s != {} ==> schedule.pick(s) <= s && schedule.pick(s) != {}
  }

  class Tasks {
    const concurrency: nat
    /** What the core answers to the k-th send. */
    const sendOk: nat -> bool

    var count: nat
    var errors: nat
    /** Tasks created so far, and those of them still in the list. */
    var created: nat
    var buffered: nat
    var unfinished: set<nat>
    /** The tasks inside the semaphore. */
    var running: set<nat>

    ghost predicate Valid()
      reads this
    {
      && running <= unfinished && |running| <= concurrency
      && |unfinished| <= buffered <= BUFFER && buffered <= created
      && (forall k :: k in unfinished ==> k < created)
      && Accepted(sendOk, created) == count + OkIn(sendOk, unfinished)
      && created == count + errors + |unfinished|
    }

    constructor (concurrency: nat, sendOk: nat -> bool)
      requires concurrency >= 1
      ensures Valid() && this.concurrency == concurrency && this.sendOk == sendOk
      ensures created == 0 && buffered == 0 && count == 0
    {
      this.concurrency, this.sendOk := concurrency, sendOk;
      count, errors, created, buffered, unfinished, running := 0, 0, 0, 0, {}, {};
    }

    method Create()
      requires Valid() && buffered < BUFFER
      modifies this`created, this`buffered, this`unfinished
      ensures Valid() && created == old(created) + 1 && buffered == old(buffered) + 1
      ensures unfinished == old(unfinished) + {old(created)}
    {
      ghost var grown := unfinished + {created};
      assert grown - {created} == unfinished;
      RemoveTask(sendOk, grown, created);
      unfinished := unfinished + {created};
      created, buffered := created + 1, buffered + 1;
    }

    /** A task leaves the semaphore with the core's answer. */
    method End(k: nat)
      requires Valid() && k in running
      modifies this`count, this`errors, this`unfinished, this`running
      ensures Valid() && unfinished == old(unfinished) - {k} && running == old(running) - {k}
    {
      RemoveTask(sendOk, unfinished, k);
      Subset(running - {k}, running);
      if sendOk(k) {
        count := count + 1;
      } else {
        errors := errors + 1;
      }
      unfinished, running := unfinished - {k}, running - {k};
    }

    method Begin(k: nat)
      requires Valid() && k in unfinished && k !in running && |running| < concurrency
      modifies this`running
      ensures Valid() && running == old(running) + {k}
    {
      running := running + {k};
    }

    /** One move of the event loop: a waiting task gets a free slot of the semaphore, or a running one ends. */
    method Turn(schedule: Schedule, n: nat)
      requires Valid() && concurrency >= 1 && unfinished != {} && PicksAmong(schedule)
      modifies this`count, this`errors, this`unfinished, this`running
      ensures Valid() && unfinished <= old(unfinished)
      ensures 2 * |unfinished| - |running| < old(2 * |unfinished| - |running|)
    {
      var waiting := unfinished - running;
      assert waiting == {} ==> running == unfinished;
      if |running| < concurrency && waiting != {} && (running == {} || schedule.startNext(n)) {
        var k :| k in schedule.pick(waiting);
        Begin(k);
      } else {
        var k :| k in schedule.pick(running);
        RemoveTask(sendOk, unfinished, k);
        RemoveTask(sendOk, running, k);
        End(k);
      }
    }

    /** asyncio.gather, then clear: the tasks run only here, because the listing loop never awaits in between. */
    method Gather(schedule: Schedule)
      requires Valid() && concurrency >= 1 && PicksAmong(schedule)
      modifies this`count, this`errors, this`unfinished, this`running, this`buffered
      ensures Valid() && unfinished == {} && running == {} && buffered == 0
      ensures count == Accepted(sendOk, created)
    {
      var n := 0;
      while unfinished != {}
        invariant Valid()
        decreases 2 * |unfinished| - |running|
      {
        Subset(running, unfinished);
        Turn(schedule, n);
        n := n + 1;
      }
      buffered := 0;
    }
  }

  /** The count once the first n buffers are gathered. */
  function AfterGathers(ok: nat -> bool, n: nat): nat {
    Accepted(ok, BUFFER * n)
  }

  /** Before every buffer that was started in the first n sends, the count was below the limit. */
  ghost predicate BelowBefore(ok: nat -> bool, n: nat, limit: int) {
    forall j: nat :: BUFFER * j < n ==> AfterGathers(ok, j) < limit
  }

  /**
   full_scan_handler without batches. The limit is looked at after every key, but the count moves only when 200 tasks
   are gathered: the scan stops at the first multiple of 200 sends at which the limit is reached.
   */
  method SingleScan(tasks: Tasks, keys: seq<string>, matches: string -> bool, limit: int, schedule: Schedule)
    returns (sent: seq<string>, gathers: nat)
    requires tasks.Valid() && tasks.concurrency >= 1 && tasks.created == tasks.buffered == 0 && PicksAmong(schedule)
    modifies tasks
    ensures tasks.unfinished == {} && tasks.buffered == 0
    ensures sent <= Filter(keys, matches) && tasks.count == Accepted(tasks.sendOk, |sent|)
    ensures limit >= 0 && sent != Filter(keys, matches) ==>
              limit > 0 && |sent| == BUFFER * gathers && AfterGathers(tasks.sendOk, gathers) >= limit
    ensures limit > 0 ==> BelowBefore(tasks.sendOk, |sent|, limit)
  {
    sent, gathers := [], 0;
    var i, stop := 0, false;
    while i < |keys| && !stop
      invariant i <= |keys| && sent == Filter(keys[..i], matches)
      invariant tasks.Valid() && |sent| == tasks.created == BUFFER * gathers + tasks.buffered
      invariant tasks.buffered < BUFFER && tasks.count == AfterGathers(tasks.sendOk, gathers)
      invariant limit >= 0 && stop ==> tasks.buffered == 0 && tasks.count >= limit > 0
      invariant limit > 0 && !stop ==> tasks.count < limit
      invariant limit > 0 ==> BelowBefore(tasks.sendOk, |sent|, limit)
      decreases |keys| - i
    {
      FilterNext(keys, matches, i);
      if matches(keys[i]) {
        sent := sent + [keys[i]];
        gathers := Enqueue(tasks, gathers, limit, schedule);
        stop := limit != 0 && tasks.count >= limit;
      }
      i := i + 1;
    }
    if tasks.buffered > 0 {
      tasks.Gather(schedule);
    }
    FilterPrefix(keys, matches, i);
    assert keys[..|keys|] == keys;
  }

  /** One task more, and the gather when the buffer is full. */
  method Enqueue(tasks: Tasks, gathered: nat, limit: int, schedule: Schedule) returns (gathers: nat)
    requires tasks.Valid() && tasks.concurrency >= 1 && PicksAmong(schedule) && tasks.buffered < BUFFER
    requires tasks.created == BUFFER * gathered + tasks.buffered
    requires tasks.count == AfterGathers(tasks.sendOk, gathered)
    requires limit > 0 ==> tasks.count < limit && BelowBefore(tasks.sendOk, tasks.created, limit)
    modifies tasks
    ensures tasks.Valid() && tasks.created == old(tasks.created) + 1 == BUFFER * gathers + tasks.buffered
    ensures tasks.buffered < BUFFER && tasks.count == AfterGathers(tasks.sendOk, gathers)
    ensures limit > 0 ==> BelowBefore(tasks.sendOk, tasks.created, limit)
    ensures tasks.count == old(tasks.count) || tasks.buffered == 0
  {
    gathers := gathered;
    tasks.Create();
    if tasks.buffered >= BUFFER {
      tasks.Gather(schedule);
      gathers := gathers + 1;
    }
  }

  function RoundedUp(n: nat): (r: nat)
    ensures r % 200 == 0 && n <= r < n + 200
  {
    (n + BUFFER - 1) / BUFFER * BUFFER
  }

  /** When every send is accepted, the count is the number of keys or the limit rounded up to a multiple of 200. */
  lemma CountWhenAllAccepted(ok: nat -> bool, sent: nat, gathers: nat, n: nat, limit: nat)
    requires sent <= n && limit > 0 && forall k :: 0 <= k < sent ==> ok(k)
    requires sent != n ==> sent == BUFFER * gathers && AfterGathers(ok, gathers) >= limit
    requires BelowBefore(ok, sent, limit)
    ensures Accepted(ok, sent) == Smaller(n, RoundedUp(limit))
  {
    AllAccepted(ok, sent);
    if sent > 0 {
      var j := (sent - 1) / BUFFER;
      assert AfterGathers(ok, j) < limit;
      AllAccepted(ok, BUFFER * j);
    }
  }

  /** The accepted batches before the last one, and the last one, add up to the limit. */
  predicate FullyOffered(ok: nat -> bool, batches: seq<seq<string>>, limit: int) {
    && batches != []
    && AcceptedItems(ok, batches[..|batches| - 1]) + |batches[|batches| - 1]| == limit
  }

  /** The state of batch mode: the buffer is emptied after the send, and a batch is cut only at its size. */
  class Batches {
    const size: nat
    /** What the core answers to the k-th batch. */
    const batchOk: nat -> bool

    var count: nat
    var errors: nat
    var batchItems: seq<string>
    var batches: seq<seq<string>>

    ghost predicate Valid()
      reads this
    {
      && size >= 1 && |batchItems| <= size && SizedBatches(batches, size)
      && count == AcceptedItems(batchOk, batches)
    }

    ghost function Taken(): seq<string>
      reads this
    {
      Flat(batches) + batchItems
    }

    constructor (size: nat, batchOk: nat -> bool)
      requires size >= 1
      ensures Valid() && batches == [] && batchItems == []
      ensures this.size == size && this.batchOk == batchOk
    {
      this.size, this.batchOk := size, batchOk;
      count, errors, batchItems, batches := 0, 0, [], [];
    }

    /** _flush_batch */
    method FlushBatch()
      requires Valid()
      modifies this
      ensures Valid() && Taken() == old(Taken()) && batchItems == []
      ensures batches == if old(batchItems) == [] then old(batches) else old(batches) + [old(batchItems)]
      ensures count == old(count) || count == old(count + |batchItems|)
      ensures old(batchItems) != [] ==> FullyOffered(batchOk, batches, old(count + |batchItems|))
    {
      if batchItems == [] {
        return;
      }
      SendBatch(batchOk, batches, batchItems, size);
      if batchOk(|batches|) {
        count := count + |batchItems|;
      } else {
        errors := errors + 1;
      }
      batches := batches + [batchItems];
      assert batches[..|batches| - 1] == old(batches);
      batchItems := [];
      assert Flat(batches) + [] == Flat(batches);
    }

    method Add(key: string)
      requires Valid() && |batchItems| < size
      modifies this
      ensures Valid() && |batchItems| < size && Taken() == old(Taken()) + [key]
      ensures if batchItems == []
              then count <= old(count + |batchItems|) + 1 && FullyOffered(batchOk, batches, old(count + |batchItems|) + 1)
              else count + |batchItems| == old(count + |batchItems|) + 1
    {
      batchItems := batchItems + [key];
      assert Flat(batches) + batchItems == old(Flat(batches) + batchItems) + [key];
      if |batchItems| >= size {
        FlushBatch();
      }
    }
  }

  /**
   full_scan_handler with batches, whatever batches fail: a limit L > 0 is never exceeded, and the scan takes every
   matched key unless it offered as many as the limit still allowed.
   */
  method BatchScan(scan: Batches, keys: seq<string>, matches: string -> bool, limit: int)
    requires scan.Valid() && scan.batches == [] && scan.batchItems == []
    modifies scan
    ensures SizedBatches(scan.batches, scan.size) && scan.count == AcceptedItems(scan.batchOk, scan.batches)
    ensures scan.batchItems == [] && Flat(scan.batches) <= Filter(keys, matches)
    ensures limit > 0 ==> scan.count <= limit
    ensures limit >= 0 && Flat(scan.batches) != Filter(keys, matches) ==>
              limit > 0 && FullyOffered(scan.batchOk, scan.batches, limit)
    ensures limit > 0 && (forall k :: 0 <= k < |scan.batches| ==> scan.batchOk(k)) ==>
              scan.count == Smaller(limit, |Filter(keys, matches)|)
  {
    TakeBatches(scan, keys, matches, limit);
    if limit > 0 && (forall k :: 0 <= k < |scan.batches| ==> scan.batchOk(k)) {
      AllItemsAccepted(scan.batchOk, scan.batches);
    }
  }

  /** The loop over the keys, and the last flush. */
  method TakeBatches(scan: Batches, keys: seq<string>, matches: string -> bool, limit: int)
    requires scan.Valid() && scan.batches == [] && scan.batchItems == []
    modifies scan
    ensures scan.Valid() && scan.batchItems == [] && Flat(scan.batches) <= Filter(keys, matches)
    ensures limit > 0 ==> scan.count <= limit
    ensures limit >= 0 && Flat(scan.batches) != Filter(keys, matches) ==>
              limit > 0 && FullyOffered(scan.batchOk, scan.batches, limit)
  {
    var i, stop := 0, false;
    while i < |keys| && !stop
      invariant i <= |keys| && scan.Valid() && |scan.batchItems| < scan.size
      invariant scan.Taken() == Filter(keys[..i], matches)
      invariant limit > 0 ==> (if stop then scan.count + |scan.batchItems| == limit
                               else scan.count + |scan.batchItems| < limit)
      invariant limit == 0 ==> !stop
      invariant stop && limit > 0 && scan.batchItems == [] ==> FullyOffered(scan.batchOk, scan.batches, limit)
      decreases |keys| - i
    {
      FilterNext(keys, matches, i);
      if matches(keys[i]) {
        scan.Add(keys[i]);
        stop := limit != 0 && scan.count + |scan.batchItems| >= limit;
      }
      i := i + 1;
    }
    scan.FlushBatch();
    assert Flat(scan.batches) + [] == Flat(scan.batches);
    FilterPrefix(keys, matches, i);
    assert keys[..|keys|] == keys;
  }
}
