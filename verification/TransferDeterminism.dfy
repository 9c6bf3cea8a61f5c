/** With the scanner's and the sink's answers fixed, no schedule and no concurrency changes the result. */
module TransferDeterminism {
  import opened Lists
  import opened Text
  import opened Transfer
  import opened TransferInvariants
  import opened TransferCounting
  import opened TransferOwnership
  import opened TransferCheckpoint
  import opened TransferRuns
  import opened TransferTheorems

  datatype Reply<+T> = Answer(answer: T) | Throws(message: string)

  /** What the scanner and the sink do with each item. */
  datatype Oracle = Oracle(scan: nat -> Reply<Policy.Response>, write: nat -> Reply<nat>)

  /** executeItem run on its own. */
  function Expected(c: Config, oracle: Oracle, item: nat): Outcome {
    match oracle.scan(item)
    case Throws(message) => FailedOutcome(item, message)
    case Answer(response) =>
      var d := c.decide(response);
      if d.action != "allow" then DecidedOutcome(item, d, StateForAction(d.action), 0)
      else if !c.accepts(item) then FailedOutcome(item, REFUSED.message)
      else
        match oracle.write(item)
        case Throws(message) => FailedOutcome(item, message)
        case Answer(bytes) => DecidedOutcome(item, d, Allowed, if c.sink == FileShare then bytes else c.sizes(item))
  }

  /** The sequential loop over the first n items. */
  function SequentialOutcomes(c: Config, oracle: Oracle, n: nat): (r: seq<Outcome>)
    ensures |r| == n
    ensures forall i :: 0 <= i < n ==> r[i] == Expected(c, oracle, i)
  {
    if n == 0 then [] else SequentialOutcomes(c, oracle, n - 1) + [Expected(c, oracle, n - 1)]
  }

  function ExpectedOf(c: Config, oracle: Oracle): nat -> Outcome {
    (item: nat) => Expected(c, oracle, item)
  }

  /** The records that a loop over the first n identities leaves. */
  function Records(identities: seq<string>, expected: nat -> Outcome, n: nat): map<string, Outcome>
    requires n <= |identities|
  {
    if n == 0 then map[] else Assign(Records(identities, expected, n - 1), identities[n - 1], expected(n - 1))
  }

  function SequentialCheckpoint(c: Config, oracle: Oracle): map<string, Outcome> {
    Records(c.identities, ExpectedOf(c, oracle), |c.identities|)
  }

  /** The answer is the oracle's. */
  predicate AsOracle(oracle: Oracle, pc: Pc, answer: Transfer.Answer)
    requires Answers(pc, answer)
  {
    match answer
    case ScanReturned(response) => oracle.scan(pc.item) == Answer(response)
    case ScanThrew(failure) => !failure.abortNamed && oracle.scan(pc.item) == Throws(failure.message)
    case SinkReturned(bytes) =>
      (pc.phase == Statting ==> oracle.write(pc.item) == Answer(bytes))
      && (pc.phase == Uploading ==> oracle.write(pc.item).Answer?)
    case SinkThrew(failure, _) =>
      pc.phase == Refused || (!failure.abortNamed && oracle.write(pc.item) == Throws(failure.message))
  }

  predicate Quiet(oracle: Oracle, s: State, e: Event) {
    && !e.Abort? && !IsIoFailure(e)
    && (e.Resume? && e.w < |s.workers| && Answers(s.workers[e.w], e.answer) ==>
          AsOracle(oracle, s.workers[e.w], e.answer))
  }

  /** An uncancelled run without I/O failures in which scanner and sink answer as the oracle says. */
  predicate QuietRun(c: Config, oracle: Oracle, es: seq<Event>) {
    Execute(c, false, es).Some? &&
    (es == [] ||
     (QuietRun(c, oracle, es[..|es| - 1])
      && Quiet(oracle, Execute(c, false, es[..|es| - 1]).value, es[|es| - 1])))
  }

  predicate QuietPc(c: Config, oracle: Oracle, pc: Pc) {
    match pc
    case Writing(i, phase, d) =>
      && oracle.scan(i).Answer? && d == c.decide(oracle.scan(i).answer) && d.action == "allow"
      && (phase == Refused <==> !c.accepts(i))
      && (phase == Uploading ==> c.sink == CloudBucket)
      && (phase == MakingFolder || phase == Copying || phase == Statting ==> c.sink == FileShare)
    case Aborted(_) => false
    case _ => true
  }

  predicate QuietInv(c: Config, oracle: Oracle, s: State) {
    && !s.aborted
    && (forall w :: 0 <= w < |s.workers| ==> QuietPc(c, oracle, s.workers[w]))
    && (forall k :: 0 <= k < |s.outcomes| ==> s.outcomes[k] == Expected(c, oracle, s.outcomes[k].item))
    && (s.main.Ended? ==> s.main.ending != Cancelled)
  }

  /** executeItem, resumed with the oracle's answers, stays on course for the expected outcome. */
  lemma ExecuteAsExpected(c: Config, oracle: Oracle, pc: Pc, answer: Transfer.Answer)
    requires QuietPc(c, oracle, pc) && Answers(pc, answer) && AsOracle(oracle, pc, answer)
    ensures match ExecuteItem(c, false, pc, answer)
            case Suspended(next) => QuietPc(c, oracle, next)
            case Returned(outcome) => outcome == Expected(c, oracle, pc.item)
  {
  }

  lemma QuietStep(c: Config, oracle: Oracle, s: State, e: Event)
    requires QuietInv(c, oracle, s) && InRange(c, s) && Enabled(c, s, e) && Quiet(oracle, s, e)
    ensures QuietInv(c, oracle, Apply(c, s, e))
  {
    var t := Apply(c, s, e);
    if e.Resume? {
      var next := ExecuteItem(c, s.aborted, s.workers[e.w], e.answer);
      ExecuteAsExpected(c, oracle, s.workers[e.w], e.answer);
      assert t.workers == s.workers[e.w := t.workers[e.w]];
      assert t.outcomes == if next.Returned? then s.outcomes + [next.outcome] else s.outcomes;
    }
  }

  lemma {:induction false} QuietRunInv(c: Config, oracle: Oracle, es: seq<Event>)
    requires QuietRun(c, oracle, es)
    ensures QuietInv(c, oracle, Execute(c, false, es).value)
    ensures forall e :: e in es ==> !IsIoFailure(e)
  {
    if es != [] {
      var before := es[..|es| - 1];
      QuietRunInv(c, oracle, before);
      QuietStep(c, oracle, Execute(c, false, before).value, es[|es| - 1]);
      assert es == before + [es[|es| - 1]];
    }
  }

  // ----- the result does not depend on the order

  predicate IsIdentity(identities: seq<string>, n: nat, id: string)
    requires n <= |identities|
  {
    exists i :: 0 <= i < n && identities[i] == id
  }

  lemma {:induction false} RecordsHold(identities: seq<string>, expected: nat -> Outcome, n: nat)
    requires NoRepeats(identities) && n <= |identities|
    ensures var records := Records(identities, expected, n);
            forall i :: 0 <= i < n && identities[i] != PROTO ==>
              identities[i] in records && records[identities[i]] == expected(i)
  {
    if n > 0 {
      RecordsHold(identities, expected, n - 1);
    }
  }

  lemma {:induction false} RecordsAreOfItems(identities: seq<string>, expected: nat -> Outcome, n: nat)
    requires n <= |identities|
    ensures forall id :: id in Records(identities, expected, n) ==> id != PROTO && IsIdentity(identities, n, id)
  {
    if n > 0 {
      RecordsAreOfItems(identities, expected, n - 1);
      assert IsIdentity(identities, n, identities[n - 1]);
      forall id | IsIdentity(identities, n - 1, id) ensures IsIdentity(identities, n, id) {
        var i :| 0 <= i < n - 1 && identities[i] == id;
      }
    }
  }

  lemma SameOutcomes(c: Config, oracle: Oracle, s: State)
    requires OwnInv(c, s) && QuietInv(c, oracle, s)
    requires forall i: nat :: i < |c.identities| ==> Recorded(s, i)
    ensures multiset(s.outcomes) == multiset(SequentialOutcomes(c, oracle, |c.identities|))
  {
    var n := |c.identities|;
    var sequential := SequentialOutcomes(c, oracle, n);
    assert NoRepeats(s.outcomes);
    assert NoRepeats(sequential) by {
      assert forall i :: 0 <= i < n ==> sequential[i].item == i;
    }
    forall o: Outcome ensures o in s.outcomes <==> o in sequential {
      if o in s.outcomes {
        var k :| 0 <= k < |s.outcomes| && s.outcomes[k] == o;
        assert sequential[o.item] == o;
      }
      if o in sequential {
        var i :| 0 <= i < n && sequential[i] == o;
        assert Recorded(s, i);
        var k :| 0 <= k < |s.outcomes| && s.outcomes[k].item == i;
        assert s.outcomes[k] == o;
      }
    }
    SameElements(s.outcomes, sequential);
  }

  /**
   Every quiet run, whatever its schedule and concurrency, that ends has completed with the outcomes of the
   sequential loop, in some order, and with its checkpoint.
   */
  lemma SameAsSequential(c: Config, oracle: Oracle, es: seq<Event>)
    requires DistinctIdentities(c) && QuietRun(c, oracle, es)
    requires Execute(c, false, es).value.main.Ended?
    ensures var s := Execute(c, false, es).value;
            && s.main == Ended(Completed)
            && multiset(s.outcomes) == multiset(SequentialOutcomes(c, oracle, |c.identities|))
            && s.saved == Some(SequentialCheckpoint(c, oracle))
            && s.counts == ReportSummary(SequentialOutcomes(c, oracle, |c.identities|))
  {
    var s := Execute(c, false, es).value;
    QuietRunInv(c, oracle, es);
    WithoutIoFailures(c, false, es);
    RunInv(c, false, es);
    ReportsAreComplete(c, false, es);
    CompletedCoversEveryItem(c, false, es);
    SameOutcomes(c, oracle, s);
    SameSummary(s.outcomes, SequentialOutcomes(c, oracle, |c.identities|));
    SameRecords(c, oracle, s);
  }

  lemma {:induction false} RecountWithout(outcomes: seq<Outcome>, k: nat, state: ItemState)
    requires k < |outcomes|
    ensures Recount(outcomes, state)
         == Recount(outcomes[..k] + outcomes[k + 1..], state) + One(outcomes[k].state == state)
  {
    var n := |outcomes| - 1;
    if k < n {
      RecountWithout(outcomes[..n], k, state);
      var rest := outcomes[..k] + outcomes[k + 1..];
      assert rest[..|rest| - 1] == outcomes[..n][..k] + outcomes[..n][k + 1..];
    } else {
      assert outcomes[..k] + outcomes[k + 1..] == outcomes[..n];
    }
  }

  lemma {:induction false} SameRecount(a: seq<Outcome>, b: seq<Outcome>, state: ItemState)
    requires multiset(a) == multiset(b)
    ensures Recount(a, state) == Recount(b, state)
    decreases |a|
  {
    if a == [] {
      assert |multiset(b)| == 0;
    } else {
      var k := TakeLast(a, b);
      SameRecount(a[..|a| - 1], b[..k] + b[k + 1..], state);
      RecountWithout(b, k, state);
    }
  }

  /** The order of the outcomes does not change the summary in the report. */
  lemma SameSummary(a: seq<Outcome>, b: seq<Outcome>)
    requires multiset(a) == multiset(b)
    ensures ReportSummary(a) == ReportSummary(b)
  {
    assert |multiset(a)| == |multiset(b)|;
    forall state ensures Recount(a, state) == Recount(b, state) {
      SameRecount(a, b, state);
    }
  }

  lemma SameRecords(c: Config, oracle: Oracle, s: State)
    requires DistinctIdentities(c) && IsCheckpointOf(c, s.checkpoint, s.outcomes) && QuietInv(c, oracle, s)
    requires forall i: nat :: i < |c.identities| ==> Recorded(s, i)
    ensures s.checkpoint == SequentialCheckpoint(c, oracle)
  {
    var expected := ExpectedOf(c, oracle);
    forall o | o in s.outcomes ensures o == expected(o.item) {
      var k :| 0 <= k < |s.outcomes| && s.outcomes[k] == o;
    }
    CheckpointIsRecords(c, expected, s);
  }

  lemma CheckpointIsRecords(c: Config, expected: nat -> Outcome, s: State)
    requires NoRepeats(c.identities) && IsCheckpointOf(c, s.checkpoint, s.outcomes)
    requires forall i: nat :: i < |c.identities| ==> Recorded(s, i)
    requires forall o :: o in s.outcomes ==> o == expected(o.item)
    ensures s.checkpoint == Records(c.identities, expected, |c.identities|)
  {
    var records := Records(c.identities, expected, |c.identities|);
    RecordsHold(c.identities, expected, |c.identities|);
    RecordsAreOfItems(c.identities, expected, |c.identities|);
    RecordOfEach(c, s);
    forall id | id in records ensures id in s.checkpoint {
      assert IsIdentity(c.identities, |c.identities|, id);
    }
    forall id | id in s.checkpoint ensures id in records && records[id] == s.checkpoint[id] {
      var o := s.checkpoint[id];
      assert c.identities[o.item] == id && o == expected(o.item);
    }
  }

  /** A quiet run that has not ended can go on quietly; with EveryRunIsBounded, it ends. */
  lemma QuietProgress(c: Config, oracle: Oracle, es: seq<Event>)
    requires QuietRun(c, oracle, es) && !Execute(c, false, es).value.main.Ended?
    ensures exists e :: QuietRun(c, oracle, es + [e])
  {
    RunInv(c, false, es);
    QuietRunInv(c, oracle, es);
    WithoutIoFailures(c, false, es);
    var s := Execute(c, false, es).value;
    var e := NextQuiet(c, oracle, s);
    assert (es + [e])[..|es|] == es;
    assert QuietRun(c, oracle, es + [e]);
  }

  /** Every quiet run can be continued to a quiet run that has ended. */
  lemma {:induction false} QuietRunsEnd(c: Config, oracle: Oracle, es: seq<Event>)
    requires QuietRun(c, oracle, es)
    ensures exists fs :: es <= fs && QuietRun(c, oracle, fs) && Execute(c, false, fs).value.main.Ended?
    decreases 8 * |c.identities| + WorkerCount(c) + 9 - |es|
  {
    if Execute(c, false, es).value.main.Ended? {
      assert es <= es;
    } else {
      QuietProgress(c, oracle, es);
      var e :| QuietRun(c, oracle, es + [e]);
      EveryRunIsBounded(c, false, es + [e]);
      QuietRunsEnd(c, oracle, es + [e]);
      var fs :| es + [e] <= fs && QuietRun(c, oracle, fs) && Execute(c, false, fs).value.main.Ended?;
      assert es <= fs;
    }
  }

  lemma NextQuiet(c: Config, oracle: Oracle, s: State) returns (e: Event)
    requires LogInv(s.log) && TicketInv(s) && MainInv(s) && QuietInv(c, oracle, s) && !s.log.stuck && !s.main.Ended?
    ensures Enabled(c, s, e) && Quiet(oracle, s, e)
  {
    e := NextEvent(c, s);
    if e.Resume? {
      var pc := s.workers[e.w];
      match pc
      case Scanning(i) =>
        e := Resume(e.w, match oracle.scan(i)
                         case Answer(response) => ScanReturned(response)
                         case Throws(message) => ScanThrew(Failure(false, message)));
      case Writing(i, phase, _) =>
        if phase != Refused {
          e := Resume(e.w, match oracle.write(i)
                           case Answer(bytes) => SinkReturned(bytes)
                           case Throws(message) => SinkThrew(Failure(false, message), false));
        }
    }
  }

  /** So any two quiet runs over the same files agree, whatever their concurrency. */
  lemma ConcurrencyIsInvisible(c: Config, d: Config, oracle: Oracle, es: seq<Event>, fs: seq<Event>)
    requires DistinctIdentities(c) && d == c.(requested := d.requested)
    requires QuietRun(c, oracle, es) && Execute(c, false, es).value.main.Ended?
    requires QuietRun(d, oracle, fs) && Execute(d, false, fs).value.main.Ended?
    ensures var s, t := Execute(c, false, es).value, Execute(d, false, fs).value;
            && multiset(s.outcomes) == multiset(t.outcomes)
            && s.saved == t.saved && s.counts == t.counts
  {
    SameAsSequential(c, oracle, es);
    SameAsSequential(d, oracle, fs);
    SameSequential(c, d, oracle, |c.identities|);
  }

  lemma {:induction false} SameSequential(c: Config, d: Config, oracle: Oracle, n: nat)
    requires d == c.(requested := d.requested) && n <= |c.identities|
    ensures SequentialOutcomes(c, oracle, n) == SequentialOutcomes(d, oracle, n)
    ensures Records(c.identities, ExpectedOf(c, oracle), n) == Records(d.identities, ExpectedOf(d, oracle), n)
  {
    if n > 0 {
      SameSequential(c, d, oracle, n - 1);
    }
  }
}
