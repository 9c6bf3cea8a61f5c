/** What a run of the guarded transfer guarantees, for every schedule, failure and abort. */
module TransferTheorems {
  import opened Text
  import opened Transfer
  import opened TransferInvariants
  import opened TransferCounting
  import opened TransferOwnership
  import opened TransferGate
  import opened TransferCheckpoint
  import opened TransferRuns

  /** The audit file is a prefix of the outcomes' lines in completion order, whatever append failed. */
  lemma AuditTrail(c: Config, aborted: bool, es: seq<Event>)
    requires Execute(c, aborted, es).Some?
    ensures var s := Execute(c, aborted, es).value;
            && s.log.file + (Concat(s.log.chain) + Concat(s.log.lines)) == Rendered(c, s.outcomes)
            && s.log.file <= Rendered(c, s.outcomes)
            && |s.log.lines| < 100
  {
    RunInv(c, aborted, es);
  }

  /** 100 lines a batch, and the rest in the buffer. */
  predicate FullBatches(s: State) {
    |s.outcomes| == 100 * s.log.enqueued + |s.log.lines| && |s.log.lines| < 100
  }

  lemma FullBatchStep(c: Config, s: State, e: Event)
    requires s.main == AwaitingWorkers && FullBatches(s) && InRange(c, s) && Enabled(c, s, e) && e != WorkersSettled
    ensures Apply(c, s, e).main == AwaitingWorkers && FullBatches(Apply(c, s, e))
  {
  }

  /** Until the workers have settled, the log is handed on in batches of exactly 100 outcomes. */
  lemma {:induction false} BatchesAreFull(c: Config, aborted: bool, es: seq<Event>)
    requires Execute(c, aborted, es).Some? && Execute(c, aborted, es).value.main == AwaitingWorkers
    ensures FullBatches(Execute(c, aborted, es).value)
  {
    if es != [] {
      var s := Execute(c, aborted, es[..|es| - 1]).value;
      BatchesAreFull(c, aborted, es[..|es| - 1]);
      FullBatchStep(c, s, es[|es| - 1]);
    }
  }

  /** No claimed item and no outcome is lost from the books. */
  lemma Bookkeeping(c: Config, aborted: bool, es: seq<Event>)
    requires Execute(c, aborted, es).Some?
    ensures var s := Execute(c, aborted, es).value;
            var k := s.counts;
            && s.cursor == |s.outcomes| + Workers(s.workers, InHand)
            && |s.outcomes| == k.completed + Workers(s.workers, Untallied)
            && k.completed == k.allowed + k.blocked + k.failed + k.skipped + k.excluded
            && (forall i: nat :: i < s.cursor ==> Recorded(s, i) != Held(s, i))
            && (forall j, k :: 0 <= j < k < |s.outcomes| ==> s.outcomes[j].item != s.outcomes[k].item)
  {
    RunInv(c, aborted, es);
    var s := Execute(c, aborted, es).value;
    forall i: nat | i < s.cursor ensures Recorded(s, i) != Held(s, i) {
      assert forall w :: 0 <= w < |s.workers| && HeldBy(s, w, i) ==> !Recorded(s, i);
    }
  }

  /** The decisions are those of the policy code under these settings. */
  ghost predicate UsesPolicy(c: Config, settings: Policy.Settings) {
    forall r :: c.decide(r) == Policy.Decide(r, settings)
  }

  /**
   A payload copy starts only for an item whose own scan came back with a final decision to allow and whose
   destination the sink accepts, and once at most; with the executable block on, never for a matching file type.
   */
  lemma ScanGate(c: Config, settings: Policy.Settings, aborted: bool, es: seq<Event>)
    requires Execute(c, aborted, es).Some? && UsesPolicy(c, settings)
    ensures var h := Execute(c, aborted, es).value.history;
            && (forall i :: i in h.started ==>
                  c.accepts(i) && i in h.responses && Policy.Decide(h.responses[i], settings).action == "allow")
            && (forall i, j :: 0 <= i < j < |h.started| ==> h.started[i] != h.started[j])
            && (settings.blockExecutables ==>
                  forall i :: i in h.started ==> !Policy.NamesExecutable(h.responses[i].fileType))
            && (forall i :: i in h.landed ==> i in h.started)
            && (forall i :: i in h.delivered ==> i in h.landed)
  {
    RunInv(c, aborted, es);
    var h := Execute(c, aborted, es).value.history;
    forall i | i in h.started
      ensures i in h.responses && Policy.Decide(h.responses[i], settings).action == "allow"
      ensures settings.blockExecutables ==> !Policy.NamesExecutable(h.responses[i].fileType)
    {
      assert Cleared(c, h, i);
      Policy.AllowedExactlyWhen(h.responses[i], settings);
    }
  }

  /** The decision on record is the one about the item's own scan; a failed item has none. */
  predicate DecidedByScan(c: Config, h: History, o: Outcome) {
    if o.state == Failed then o.decision == None
    else o.item in h.responses && o.decision == Some(c.decide(h.responses[o.item]))
  }

  /**
   The state of an outcome tells what its item did at the sink: allowed is exactly a write that returned;
   blocked and excluded items never touched it. A payload that reached the sink belongs to an allowed or failed
   outcome, or to a worker that is still checking it or was aborted there.
   */
  lemma OutcomesTellTheSink(c: Config, aborted: bool, es: seq<Event>)
    requires Execute(c, aborted, es).Some?
    ensures var s := Execute(c, aborted, es).value;
            && (forall o :: o in s.outcomes ==>
                  && (o.state == Allowed <==> o.item in s.history.delivered)
                  && (o.state == Blocked || o.state == Excluded ==> o.item !in s.history.started)
                  && o.state != Skipped && Consistent(o) && DecidedByScan(c, s.history, o))
            && (forall i :: i in s.history.delivered ==> Recorded(s, i))
            && (forall i :: i in s.history.landed ==>
                  || (exists o :: o in s.outcomes && o.item == i && (o.state == Allowed || o.state == Failed))
                  || (exists w :: 0 <= w < |s.workers| && HeldBy(s, w, i)
                        && (s.workers[w].Aborted? || (s.workers[w].Writing? && s.workers[w].phase == Statting))))
  {
    RunInv(c, aborted, es);
    var s := Execute(c, aborted, es).value;
    forall o | o in s.outcomes
      ensures o.state == Allowed <==> o.item in s.history.delivered
      ensures o.state == Blocked || o.state == Excluded ==> o.item !in s.history.started
      ensures o.state != Skipped && Consistent(o) && DecidedByScan(c, s.history, o)
    {
      var k :| 0 <= k < |s.outcomes| && s.outcomes[k] == o;
      assert OutcomeOk(c, s.history, s.outcomes[k]);
    }
    forall i | i in s.history.landed
      ensures (exists o :: o in s.outcomes && o.item == i && (o.state == Allowed || o.state == Failed))
              || (exists w :: 0 <= w < |s.workers| && HeldBy(s, w, i)
                    && (s.workers[w].Aborted? || (s.workers[w].Writing? && s.workers[w].phase == Statting)))
    {
      assert Cleared(c, s.history, i);
      if Recorded(s, i) {
        var k :| 0 <= k < |s.outcomes| && s.outcomes[k].item == i;
        assert OutcomeOk(c, s.history, s.outcomes[k]);
        assert s.outcomes[k] in s.outcomes;
      } else {
        assert Held(s, i);
        var w :| 0 <= w < |s.workers| && HeldBy(s, w, i);
        assert PcOk(c, s.history, s.workers[w]);
      }
    }
  }

  /** The promise settled without giving an outcome: what comes next is another await, or nothing. */
  predicate NoOutcomeYet(c: Config, s: State, pc: Pc, answer: Answer) {
    match answer
    case ScanReturned(response) => c.decide(response).action == "allow"
    case SinkReturned(_) =>
      pc.Writing? && (pc.phase == MakingFolder || pc.phase == Copying || (pc.phase == Uploading && s.aborted))
    case ScanThrew(failure) => s.aborted || failure.abortNamed
    case SinkThrew(failure, _) => s.aborted || failure.abortNamed
  }

  /** What the outcome of an item records of the answer that settled it. */
  predicate Tells(c: Config, s: State, o: Outcome, answer: Answer) {
    match answer
    case ScanReturned(response) =>
      && o.decision == Some(c.decide(response)) && o.bytes == 0 && o.error == None
      && o.state == if c.decide(response).action == "exclude" then Excluded else Blocked
    case SinkReturned(bytes) =>
      && o.item in s.history.responses && o.decision == Some(c.decide(s.history.responses[o.item])) && o.state == Allowed
      && o.bytes == (if c.sink == FileShare then bytes else c.sizes(o.item)) && o.error == None
    case ScanThrew(failure) => o == Outcome(o.item, Failed, None, 0, Some(failure.message))
    case SinkThrew(failure, _) => o == Outcome(o.item, Failed, None, 0, Some(failure.message))
  }

  lemma AnswerTells(c: Config, s: State, pc: Pc, answer: Answer)
    requires Answers(pc, answer) && PcOk(c, s.history, pc)
    ensures var next := ExecuteItem(c, s.aborted, pc, answer);
            && (next.Suspended? <==> NoOutcomeYet(c, s, pc, answer))
            && (next.Returned? ==> next.outcome.item == pc.item && Tells(c, s, next.outcome, answer))
  {
  }

  /**
   An answer gives an outcome of its item, or none in the listed cases: decision, bytes (the size that stat answers,
   or the size of the item for an upload) and the error's message are on record.
   */
  lemma OutcomeRecordsAnswer(c: Config, aborted: bool, es: seq<Event>, s: State, w: nat, answer: Answer)
    requires Execute(c, aborted, es) == Some(s) && InRange(c, s) && Enabled(c, s, Resume(w, answer))
    ensures var t, pc := Apply(c, s, Resume(w, answer)), s.workers[w];
            if NoOutcomeYet(c, s, pc, answer) then t.outcomes == s.outcomes
            else
              && |t.outcomes| == |s.outcomes| + 1 && s.outcomes < t.outcomes
              && t.outcomes[|s.outcomes|].item == pc.item && Tells(c, s, t.outcomes[|s.outcomes|], answer)
  {
    RunInv(c, aborted, es);
    assert PcOk(c, s.history, s.workers[w]);
    AnswerTells(c, s, s.workers[w], answer);
  }

  // ----- abort

  /** After the abort no further item is claimed. */
  lemma {:induction false} AbortFreezesCursor(c: Config, aborted: bool, es: seq<Event>, more: seq<Event>)
    requires Execute(c, aborted, es).Some? && Execute(c, aborted, es).value.aborted
    requires Execute(c, aborted, es + more).Some?
    ensures Execute(c, aborted, es + more).value.aborted
    ensures Execute(c, aborted, es + more).value.cursor == Execute(c, aborted, es).value.cursor
  {
    if more == [] {
      assert es + more == es;
    } else {
      var n := |more| - 1;
      assert (es + more)[..|es + more| - 1] == es + more[..n];
      AbortFreezesCursor(c, aborted, es, more[..n]);
    }
  }

  /** Waiting for the scanner or for the sink. */
  predicate Busy(pc: Pc) {
    pc.Scanning? || pc.Writing?
  }

  /** The items of the workers that are at the last await of a write. */
  ghost predicate AtLastAwait(s: State, i: nat) {
    exists w :: 0 <= w < |s.workers| && s.workers[w].Writing? && s.workers[w].phase == Statting && s.workers[w].item == i
  }

  /** What can still happen between an aborted state and a later one. */
  ghost predicate OnlyWindsDown(s: State, t: State) {
    && t.history.started == s.history.started
    && |t.workers| == |s.workers|
    && (forall w :: 0 <= w < |s.workers| && Busy(t.workers[w]) ==> t.workers[w] == s.workers[w])
    && s.outcomes <= t.outcomes
    && (forall k :: |s.outcomes| <= k < |t.outcomes| ==>
          && t.outcomes[k].state != Failed
          && (t.outcomes[k].state == Allowed ==> AtLastAwait(s, t.outcomes[k].item)))
    && (forall i :: i in t.history.delivered ==> i in s.history.delivered || AtLastAwait(s, i))
  }

  lemma AbortedItemWindsDown(c: Config, s: State, w: nat, answer: Answer)
    requires s.aborted && w < |s.workers| && Answers(s.workers[w], answer) && s.workers[w].item < |c.identities|
    ensures var next, pc := ExecuteItem(c, true, s.workers[w], answer), s.workers[w];
            && (next.Suspended? ==> next.pc == Aborted(pc.item))
            && (next.Returned? ==>
                  && next.outcome.state != Failed && next.outcome.item == pc.item
                  && (next.outcome.state == Allowed || answer.SinkReturned? ==> AtLastAwait(s, pc.item)))
  {
  }

  lemma WindingDownResume(c: Config, s0: State, s: State, w: nat, answer: Answer)
    requires s.aborted && OnlyWindsDown(s0, s) && w < |s.workers| && Answers(s.workers[w], answer)
    requires s.workers[w].item < |c.identities|
    ensures OnlyWindsDown(s0, ResumeItem(c, s, w, answer)) && ResumeItem(c, s, w, answer).aborted
  {
    AbortedItemWindsDown(c, s, w, answer);
    assert AtLastAwait(s, s.workers[w].item) ==> AtLastAwait(s0, s.workers[w].item);
    var t := ResumeItem(c, s, w, answer);
    assert t.workers == s.workers[w := t.workers[w]];
  }

  lemma WindingDownStep(c: Config, s0: State, s: State, e: Event)
    requires s.aborted && OnlyWindsDown(s0, s) && InRange(c, s) && Enabled(c, s, e)
    ensures OnlyWindsDown(s0, Apply(c, s, e)) && Apply(c, s, e).aborted
  {
    if e.Resume? {
      WindingDownResume(c, s0, s, e.w, e.answer);
    }
  }

  /**
   After the abort no scan and no payload copy is begun, no worker goes on to a further await of a write, no item
   fails, and the only items still allowed are those whose payload was already being checked at the sink.
   */
  lemma {:induction false} NothingBeginsAfterAbort(c: Config, aborted: bool, es: seq<Event>, more: seq<Event>)
    requires Execute(c, aborted, es).Some? && Execute(c, aborted, es).value.aborted
    requires Execute(c, aborted, es + more).Some?
    ensures Execute(c, aborted, es + more).value.aborted
    ensures OnlyWindsDown(Execute(c, aborted, es).value, Execute(c, aborted, es + more).value)
  {
    if more == [] {
      assert es + more == es;
    } else {
      var n := |more| - 1;
      assert (es + more)[..|es + more| - 1] == es + more[..n];
      NothingBeginsAfterAbort(c, aborted, es, more[..n]);
      var s := Execute(c, aborted, es + more[..n]).value;
      WindingDownStep(c, Execute(c, aborted, es).value, s, more[n]);
    }
  }

  /** Once every worker has settled, the claimed items without an outcome are those of aborted workers. */
  lemma LostToAbort(c: Config, aborted: bool, es: seq<Event>)
    requires Execute(c, aborted, es).Some? && AllSettled(Execute(c, aborted, es).value)
    ensures var s := Execute(c, aborted, es).value;
            && s.cursor - |s.outcomes| == Workers(s.workers, InHand)
            && s.cursor - |s.outcomes| <= Min(Max(1, if c.requested == 0 then 4 else c.requested), Max(1, |c.identities|))
            && (forall i: nat :: i < s.cursor && !Recorded(s, i) ==> Aborted(i) in s.workers)
  {
    RunInv(c, aborted, es);
    var s := Execute(c, aborted, es).value;
    forall i: nat | i < s.cursor && !Recorded(s, i) ensures Aborted(i) in s.workers {
      assert Held(s, i);
      var w :| 0 <= w < |s.workers| && HeldBy(s, w, i);
      assert s.workers[w] == Aborted(i);
    }
  }

  // ----- how a run ends

  function ReportSummary(outcomes: seq<Outcome>): Counts {
    Counts(|outcomes|, Recount(outcomes, Allowed), Recount(outcomes, Blocked), Recount(outcomes, Failed),
           Recount(outcomes, Skipped), Recount(outcomes, Excluded))
  }

  /** Once no outcome waits to be tallied, the counters are the recount. */
  lemma CountsAreSummary(s: State)
    requires CountInv(s) && forall w :: 0 <= w < |s.workers| ==> !Is(Untallied, s.workers[w])
    ensures s.counts == ReportSummary(s.outcomes)
  {
    NoneOf(s.workers, Untallied);
    forall state ensures Recount(s.outcomes, state) == Counter(s.counts, state) {
      assert StateInv(s, state);
      NoneOf(s.workers, UntalliedIn(state));
    }
    assert Counter(s.counts, Allowed) == s.counts.allowed && Counter(s.counts, Blocked) == s.counts.blocked;
    assert Counter(s.counts, Failed) == s.counts.failed && Counter(s.counts, Skipped) == s.counts.skipped;
    assert Counter(s.counts, Excluded) == s.counts.excluded;
  }

  /** The records are those of the outcomes, keyed by identity, except that "__proto__" has none. */
  ghost predicate IsCheckpointOf(c: Config, records: map<string, Outcome>, outcomes: seq<Outcome>) {
    && (forall o :: o in outcomes ==>
          o.item < |c.identities| && (c.identities[o.item] != PROTO ==> OnRecord(c, records, o)))
    && (forall id :: id in records ==>
          id != PROTO && records[id] in outcomes && records[id].item < |c.identities| && c.identities[records[id].item] == id)
  }

  /**
   A report is only ever delivered, in completed and in cancelled runs alike, when the audit file is complete,
   the saved checkpoint has every outcome, and the counters equal the recount in the report.
   */
  lemma ReportsAreComplete(c: Config, aborted: bool, es: seq<Event>)
    requires Execute(c, aborted, es).Some? && DistinctIdentities(c)
    requires Execute(c, aborted, es).value.main in {Ended(Completed), Ended(Cancelled)}
    ensures var s := Execute(c, aborted, es).value;
            && s.log.file == Rendered(c, s.outcomes)
            && s.saved == Some(s.checkpoint)
            && IsCheckpointOf(c, s.checkpoint, s.outcomes)
            && s.counts == ReportSummary(s.outcomes)
  {
    RunInv(c, aborted, es);
    var s := Execute(c, aborted, es).value;
    assert EndedOrderly(s);
    CountsAreSummary(s);
    forall o | o in s.outcomes
      ensures o.item < |c.identities| && (c.identities[o.item] != PROTO ==> OnRecord(c, s.checkpoint, o))
    {
      var k :| 0 <= k < |s.outcomes| && s.outcomes[k] == o;
    }
    forall id | id in s.checkpoint ensures RecordSound(c, s, id) {}
  }

  /** A completed run has exactly one outcome per item, and a checkpoint record of each unless one is "__proto__". */
  lemma CompletedCoversEveryItem(c: Config, aborted: bool, es: seq<Event>)
    requires Execute(c, aborted, es).Some? && DistinctIdentities(c)
    requires Execute(c, aborted, es).value.main == Ended(Completed)
    ensures var s := Execute(c, aborted, es).value;
            && |s.outcomes| == |c.identities|
            && (forall i: nat :: i < |c.identities| ==> Recorded(s, i))
            && ((forall i: nat :: i < |c.identities| ==> c.identities[i] in s.checkpoint) <==> PROTO !in c.identities)
  {
    RunInv(c, aborted, es);
    ReportsAreComplete(c, aborted, es);
    var s := Execute(c, aborted, es).value;
    NoneOf(s.workers, InHand);
    forall i: nat | i < |c.identities| ensures Recorded(s, i) {
      assert !Held(s, i);
    }
    RecordOfEach(c, s);
  }

  /** After a failed append a run can still end, but never with a report. */
  lemma NoReportAfterFailedAppend(c: Config, aborted: bool, es: seq<Event>)
    requires Execute(c, aborted, es).Some?
    ensures var s := Execute(c, aborted, es).value;
            s.log.stuck ==> s.main !in {Ended(Completed), Ended(Cancelled)}
  {
    RunInv(c, aborted, es);
    var s := Execute(c, aborted, es).value;
    assert EndedOrderly(s) ==> LogWritten(s.log);
  }

  /** Once every item is recorded, the item "__proto__" is the only one that has no checkpoint record. */
  lemma RecordOfEach(c: Config, s: State)
    requires IsCheckpointOf(c, s.checkpoint, s.outcomes)
    requires forall i: nat :: i < |c.identities| ==> Recorded(s, i)
    ensures forall i: nat :: i < |c.identities| ==> (c.identities[i] in s.checkpoint <==> c.identities[i] != PROTO)
  {
    forall i: nat | i < |c.identities| ensures c.identities[i] in s.checkpoint <==> c.identities[i] != PROTO {
      assert Recorded(s, i);
      var k :| 0 <= k < |s.outcomes| && s.outcomes[k].item == i;
      assert s.outcomes[k] in s.outcomes;
    }
  }

  /** An append, a progress report or the closing of the run going wrong. */
  predicate IsIoFailure(e: Event) {
    e.AppendThrew? || e.ReportThrew? || e.MainThrew?
  }

  /** Without I/O failures a run that ends delivers a report, so the audit file and the checkpoint are complete. */
  lemma {:induction false} WithoutIoFailures(c: Config, aborted: bool, es: seq<Event>)
    requires Execute(c, aborted, es).Some? && forall e :: e in es ==> !IsIoFailure(e)
    ensures var s := Execute(c, aborted, es).value;
            && !s.log.stuck
            && (forall w :: 0 <= w < |s.workers| ==> !s.workers[w].FlushRejected? && !s.workers[w].PerfRejected?)
            && (s.main.Ended? ==> s.main.ending == Completed || s.main.ending == Cancelled)
  {
    if es != [] {
      WithoutIoFailures(c, aborted, es[..|es| - 1]);
      var s, e := Execute(c, aborted, es[..|es| - 1]).value, es[|es| - 1];
      assert !IsIoFailure(e);
      if e.Resume? {
        var t := ResumeItem(c, s, e.w, e.answer);
        assert t.workers == s.workers[e.w := t.workers[e.w]];
      }
    }
  }

  /** A run that has not ended can take a step. */
  lemma NeverStuck(c: Config, aborted: bool, es: seq<Event>)
    requires Execute(c, aborted, es).Some? && !Execute(c, aborted, es).value.main.Ended?
    ensures exists e :: Execute(c, aborted, es + [e]).Some?
  {
    RunInv(c, aborted, es);
    var s := Execute(c, aborted, es).value;
    var e := NextEvent(c, s);
    assert (es + [e])[..|es|] == es;
    assert Execute(c, aborted, es + [e]).Some?;
  }

  lemma NextEvent(c: Config, s: State) returns (e: Event)
    requires LogInv(s.log) && TicketInv(s) && MainInv(s) && !s.main.Ended?
    ensures Enabled(c, s, e) && !e.Abort? && !IsIoFailure(e)
  {
    match s.main
    case Saving => e := Save;
    case Closing => e := Close;
    case AwaitingFinalFlush(ticket) =>
      e := if ticket <= s.log.flushed then FinalFlushDone else if s.log.stuck then FinalFlushThrew else Append;
    case AwaitingWorkers =>
      if AllSettled(s) {
        return WorkersSettled;
      }
      var w: nat :| w < |s.workers| && !Settled(s.workers[w]);
      match s.workers[w]
      case Scanning(_) => e := Resume(w, ScanThrew(Failure(false, "")));
      case Writing(_, _, _) => e := Resume(w, SinkThrew(REFUSED, false));
      case AwaitingFlush(_, ticket) =>
        e := if ticket <= s.log.flushed then FlushDone(w) else if s.log.stuck then FlushThrew(w) else Append;
      case _ => e := Loop(w);
  }
}
