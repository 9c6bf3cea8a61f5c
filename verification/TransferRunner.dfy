/**
 runGuardedTransfer's shared variables as an object. Each method is one stretch of code between two awaits and
 does to the object what Transfer.Apply says, so Run reaches exactly the states of Transfer's runs.
 */
module TransferRunner {
  import opened Text
  import opened Transfer
  import opened TransferRuns

  class GuardedTransfer {
    const c: Config
    var cursor: nat
    var workers: seq<Pc>
    var outcomes: seq<Outcome>
    var auditLines: seq<string>
    var auditWrite: seq<string>
    var auditBroken: bool
    var batchesQueued: nat
    var batchesWritten: nat
    var auditFile: string
    var checkpointRecords: map<string, Outcome>
    var checkpointFile: Option<map<string, Outcome>>
    var counts: Counts
    var aborted: bool
    var main: Main
    ghost var history: History

    ghost function View(): State
      reads this
    {
      State(cursor, workers, outcomes,
            AuditLog(auditLines, auditWrite, auditBroken, batchesQueued, batchesWritten, auditFile),
            checkpointRecords, checkpointFile, counts, aborted, main, history)
    }

    constructor (c: Config, aborted: bool)
      ensures this.c == c && View() == Init(c, aborted)
    {
      this.c := c;
      cursor, outcomes, auditLines, auditWrite := 0, [], [], [];
      auditBroken, batchesQueued, batchesWritten, auditFile := false, 0, 0, "";
      checkpointRecords, checkpointFile := map[], None;
      counts := Counts(0, 0, 0, 0, 0, 0);
      this.aborted, main := aborted, AwaitingWorkers;
      history := History(map[], [], {}, {});
      workers := seq(WorkerCount(c), _ => Ready);
    }

    /** flushAudit up to its await; the ticket is the batch whose append the caller awaits. */
    method Flush() returns (ticket: nat)
      modifies this
      ensures View() == old(View()).(log := FlushAudit(old(View().log)))
      ensures ticket == batchesQueued
    {
      if |auditLines| > 0 {
        var batch := Concat(auditLines);
        auditLines := [];
        auditWrite := auditWrite + [batch];
        batchesQueued := batchesQueued + 1;
      }
      ticket := batchesQueued;
    }

    method Count(state: ItemState)
      modifies this
      ensures View() == old(View()).(counts := Bump(old(counts), state))
    {
      counts := counts.(completed := counts.completed + 1);
      if state == Allowed {
        counts := counts.(allowed := counts.allowed + 1);
      } else if state == Blocked {
        counts := counts.(blocked := counts.blocked + 1);
      } else if state == Failed {
        counts := counts.(failed := counts.failed + 1);
      } else if state == Skipped {
        counts := counts.(skipped := counts.skipped + 1);
      } else {
        counts := counts.(excluded := counts.excluded + 1);
      }
    }

    method RecordOutcome(w: nat, outcome: Outcome)
      requires w < |workers| && outcome.item < |c.identities|
      modifies this
      ensures View() == Tally(c, old(View()), w, outcome)
    {
      var identity := c.identities[outcome.item];
      if identity != PROTO {
        checkpointRecords := checkpointRecords[identity := outcome];
      }
      Count(outcome.state);
      workers := workers[w := Reporting(outcome.item)];
    }

    method PushOutcome(w: nat, outcome: Outcome)
      requires w < |workers| && outcome.item < |c.identities|
      modifies this
      ensures View() == Settle(c, old(View()), w, outcome)
    {
      outcomes := outcomes + [outcome];
      auditLines := auditLines + [c.render(outcome)];
      if |auditLines| >= FLUSH_AT {
        var ticket := Flush();
        workers := workers[w := AwaitingFlush(outcome, ticket)];
      } else {
        RecordOutcome(w, outcome);
      }
    }

    method LoopHead(w: nat)
      requires InRange(c, View()) && Enabled(c, View(), Loop(w))
      modifies this
      ensures View() == Apply(c, old(View()), Loop(w))
    {
      if cursor < |c.identities| && !aborted {
        workers := workers[w := Scanning(cursor)];
        cursor := cursor + 1;
      } else {
        workers := workers[w := Finished];
      }
    }

    method ItemResumes(w: nat, answer: Answer)
      requires InRange(c, View()) && Enabled(c, View(), Resume(w, answer))
      modifies this
      ensures View() == Apply(c, old(View()), Resume(w, answer))
    {
      var pc := workers[w];
      var next := ExecuteItem(c, aborted, pc, answer);
      history := Remember(history, pc, answer, next);
      match next {
        case Suspended(at) => workers := workers[w := at];
        case Returned(outcome) => PushOutcome(w, outcome);
      }
    }

    method AppendBatch()
      requires auditWrite != [] && !auditBroken
      modifies this
      ensures View() == old(View()).(log := AppendHead(old(View().log)))
    {
      auditFile := auditFile + auditWrite[0];
      auditWrite := auditWrite[1..];
      batchesWritten := batchesWritten + 1;
    }

    method AppendFails(written: nat)
      requires auditWrite != [] && !auditBroken && written <= |auditWrite[0]|
      modifies this
      ensures View() == old(View()).(log := FailAppend(old(View().log), written))
    {
      auditFile := auditFile + auditWrite[0][..written];
      auditWrite := [auditWrite[0][written..]] + auditWrite[1..];
      auditBroken := true;
    }

    method Step(e: Event)
      requires InRange(c, View()) && Enabled(c, View(), e)
      modifies this
      ensures View() == Apply(c, old(View()), e)
    {
      match e
      case Loop(w) => LoopHead(w);
      case Resume(w, answer) => ItemResumes(w, answer);
      case FlushDone(w) => RecordOutcome(w, workers[w].outcome);
      case FlushThrew(w) => workers := workers[w := FlushRejected(workers[w].outcome)];
      case ReportThrew(w) => workers := workers[w := PerfRejected(workers[w].last)];
      case Append => AppendBatch();
      case AppendThrew(written) => AppendFails(written);
      case Abort => aborted := true;
      case WorkersSettled =>
        var ticket := Flush();
        main := AwaitingFinalFlush(ticket);
      case FinalFlushDone => main := Saving;
      case FinalFlushThrew => main := Ended(IoFailure);
      case Save =>
        checkpointFile := Some(checkpointRecords);
        main := Closing;
      case MainThrew => main := Ended(IoFailure);
      case Close =>
        var failed, lost := false, false;
        for w := 0 to |workers|
          invariant failed <==> exists v :: 0 <= v < w && (workers[v].FlushRejected? || workers[v].PerfRejected?)
          invariant lost <==> exists v :: 0 <= v < w && workers[v].Aborted?
          invariant View() == old(View())
        {
          failed := failed || workers[w].FlushRejected? || workers[w].PerfRejected?;
          lost := lost || workers[w].Aborted?;
        }
        main := Ended(if failed then WorkerFailure else if aborted || lost then Cancelled else Completed);
    }
  }

  /** Drives a transfer through one run; every lemma about Execute's states is about this object's. */
  method Run(c: Config, aborted: bool, es: seq<Event>) returns (transfer: GuardedTransfer)
    requires Execute(c, aborted, es).Some?
    ensures fresh(transfer) && transfer.c == c
    ensures transfer.View() == Execute(c, aborted, es).value
  {
    transfer := new GuardedTransfer(c, aborted);
    for k := 0 to |es|
      invariant fresh(transfer) && transfer.c == c
      invariant Execute(c, aborted, es[..k]).Some?
      invariant transfer.View() == Execute(c, aborted, es[..k]).value
    {
      PrefixRuns(c, aborted, es, k + 1);
      assert es[..k + 1][..k] == es[..k];
      transfer.Step(es[k]);
    }
    assert es[..|es|] == es;
  }

  lemma {:induction false} PrefixRuns(c: Config, aborted: bool, es: seq<Event>, k: nat)
    requires k <= |es| && Execute(c, aborted, es).Some?
    ensures Execute(c, aborted, es[..k]).Some?
  {
    if k < |es| {
      PrefixRuns(c, aborted, es[..|es| - 1], k);
      assert es[..|es| - 1][..k] == es[..k];
    } else {
      assert es[..k] == es;
    }
  }
}
