/** The bookkeeping that the three full-scan enqueuers share. */
module FullScan {
  import opened Lists

  function Whole<T>(batch: seq<T>): seq<T> { batch }

  function Flat<T>(batches: seq<seq<T>>): seq<T> {
    FlatMap(Whole, batches)
  }

  /** How many of the first n sends the core accepted. */
  function Accepted(ok: nat -> bool, n: nat): (r: nat)
    ensures r <= n
  {
    if n == 0 then 0 else Accepted(ok, n - 1) + (if ok(n - 1) then 1 else 0)
  }

  /** How many items are in the batches that the core accepted. */
  function AcceptedItems<T>(ok: nat -> bool, batches: seq<seq<T>>): (r: nat)
  {
    if batches == [] then 0
    else
      var n := |batches| - 1;
      AcceptedItems(ok, batches[..n]) + (if ok(n) then |batches[n]| else 0)
  }

  predicate SizedBatches<T>(batches: seq<seq<T>>, size: nat) {
    forall k :: 0 <= k < |batches| ==> 0 < |batches[k]| <= size
  }

  lemma SendBatch<T>(ok: nat -> bool, batches: seq<seq<T>>, batch: seq<T>, size: nat)
    requires SizedBatches(batches, size) && 0 < |batch| <= size
    ensures SizedBatches(batches + [batch], size) && Flat(batches + [batch]) == Flat(batches) + batch
    ensures AcceptedItems(ok, batches + [batch]) == AcceptedItems(ok, batches) + (if ok(|batches|) then |batch| else 0)
  {
    FlatMapPush(Whole, batches, batch);
    assert (batches + [batch])[..|batches|] == batches;
  }

  /** Accepted counts the sends that the core accepted, each once. */
  lemma {:induction false} AcceptedIsCount(ok: nat -> bool, n: nat)
    ensures Accepted(ok, n) == |set k | 0 <= k < n && ok(k)|
  {
    if n > 0 {
      AcceptedIsCount(ok, n - 1);
      var before, now := set k | 0 <= k < n - 1 && ok(k), set k | 0 <= k < n && ok(k);
      assert now == if ok(n - 1) then before + {n - 1} else before;
    }
  }

  lemma {:induction false} AllAccepted(ok: nat -> bool, n: nat)
    requires forall k :: 0 <= k < n ==> ok(k)
    ensures Accepted(ok, n) == n
  {
    if n > 0 {
      AllAccepted(ok, n - 1);
    }
  }

  /** Each item is in an accepted batch or in a refused one; a refused batch adds nothing to the count. */
  lemma {:induction false} AcceptedOrRefused<T>(ok: nat -> bool, refused: nat -> bool, batches: seq<seq<T>>)
    requires forall k: nat :: refused(k) <==> !ok(k)
    ensures AcceptedItems(ok, batches) + AcceptedItems(refused, batches) == |Flat(batches)|
    ensures (forall k :: 0 <= k < |batches| ==> !ok(k)) ==> AcceptedItems(ok, batches) == 0
  {
    if batches != [] {
      AcceptedOrRefused(ok, refused, batches[..|batches| - 1]);
    }
  }

  lemma {:induction false} AllItemsAccepted<T>(ok: nat -> bool, batches: seq<seq<T>>)
    requires forall k :: 0 <= k < |batches| ==> ok(k)
    ensures AcceptedItems(ok, batches) == |Flat(batches)|
  {
    if batches != [] {
      AllItemsAccepted(ok, batches[..|batches| - 1]);
    }
  }

  /** The batch size from the request and what the core offers. */
  function EffectiveSize(requested: int, defaultSize: int, maxSize: int): (r: nat)
    ensures 1 <= r && (maxSize >= 1 ==> r <= maxSize)
    ensures 1 <= requested <= maxSize || requested == 1 ==> r == requested
    ensures requested <= 0 && 1 <= defaultSize <= maxSize ==> r == defaultSize
    ensures requested > maxSize >= 1 ==> r == maxSize
    ensures requested <= 0 && defaultSize > maxSize >= 1 ==> r == maxSize
    ensures maxSize < 1 || (requested <= 0 && defaultSize < 1) ==> r == 1
  {
    var top := if maxSize < 1 then 1 else maxSize;
    var floor := if defaultSize < 1 then 1 else defaultSize;
    var wanted := if requested > 0 then requested else floor;
    if wanted < top then wanted else top
  }

  function Smaller(a: int, b: int): int {
    if a < b then a else b
  }

  /** How many of a set of tasks end with the core accepting the item. */
  ghost function OkIn(ok: nat -> bool, tasks: set<nat>): (r: nat)
    ensures r <= |tasks|
  {
    var good := set k | k in tasks && ok(k);
    assert good <= tasks;
    Subset(good, tasks);
    |good|
  }

  lemma Subset(s: set<nat>, t: set<nat>)
    requires s <= t
    ensures |s| <= |t|
  {
    assert t == s + (t - s);
  }

  lemma RemoveTask(ok: nat -> bool, tasks: set<nat>, k: nat)
    requires k in tasks
    ensures |tasks| == |tasks - {k}| + 1
    ensures OkIn(ok, tasks) == OkIn(ok, tasks - {k}) + (if ok(k) then 1 else 0)
  {
    var rest := tasks - {k};
    var good, left := set j | j in tasks && ok(j), set j | j in rest && ok(j);
    assert left == good - {k};
  }
}
