/** What every step of the transfer engine keeps. */
module TransferInvariants {
  import opened Text
  import opened Transfer

  // ----- the audit log

  function Rendered(c: Config, outcomes: seq<Outcome>): string {
    if outcomes == [] then ""
    else Rendered(c, outcomes[..|outcomes| - 1]) + c.render(outcomes[|outcomes| - 1])
  }

  lemma RenderedPush(c: Config, outcomes: seq<Outcome>, o: Outcome)
    ensures Rendered(c, outcomes + [o]) == Rendered(c, outcomes) + c.render(o)
  {
  }

  /** File, queued or stuck batches, and buffered lines, in that order. */
  function LogText(log: AuditLog): string {
    log.file + (Concat(log.chain) + Concat(log.lines))
  }

  predicate LogInv(log: AuditLog) {
    && |log.lines| < FLUSH_AT
    && log.enqueued == log.flushed + |log.chain|
    && (log.stuck ==> log.chain != [])
  }

  lemma PushText(log: AuditLog, line: string)
    ensures LogText(PushLine(log, line)) == LogText(log) + line
  {
    ConcatAppend(log.lines, [line]);
    assert Concat([line]) == line;
  }

  lemma FlushText(log: AuditLog)
    ensures LogText(FlushAudit(log)) == LogText(log)
  {
    if log.lines != [] {
      ConcatAppend(log.chain, [Concat(log.lines)]);
      assert Concat([Concat(log.lines)]) == Concat(log.lines);
    }
  }

  lemma AppendText(log: AuditLog, written: nat)
    requires log.chain != []
    ensures LogText(AppendHead(log)) == LogText(log)
    ensures written <= |log.chain[0]| ==> LogText(FailAppend(log, written)) == LogText(log)
  {
  }

  /** The audit trail spells out the outcomes in completion order. */
  predicate AuditInv(c: Config, s: State) {
    LogText(s.log) == Rendered(c, s.outcomes) && LogInv(s.log)
  }

  lemma SettleAudit(c: Config, s: State, w: nat, o: Outcome)
    requires AuditInv(c, s) && w < |s.workers| && o.item < |c.identities|
    ensures AuditInv(c, Settle(c, s, w, o))
  {
    RenderedPush(c, s.outcomes, o);
    var log := PushLine(s.log, c.render(o));
    PushText(s.log, c.render(o));
    FlushText(log);
  }

  lemma ResumeAudit(c: Config, s: State, w: nat, answer: Answer)
    requires AuditInv(c, s) && w < |s.workers| && Answers(s.workers[w], answer) && s.workers[w].item < |c.identities|
    ensures AuditInv(c, ResumeItem(c, s, w, answer))
  {
    var next := ExecuteItem(c, s.aborted, s.workers[w], answer);
    if next.Returned? {
      SettleAudit(c, s.(history := Remember(s.history, s.workers[w], answer, next)), w, next.outcome);
    }
  }

  lemma AuditStep(c: Config, s: State, e: Event)
    requires AuditInv(c, s) && InRange(c, s) && Enabled(c, s, e)
    ensures AuditInv(c, Apply(c, s, e))
  {
    match e
    case Resume(w, answer) => ResumeAudit(c, s, w, answer);
    case Append => AppendText(s.log, 0);
    case AppendThrew(k) => AppendText(s.log, k);
    case WorkersSettled => FlushText(s.log);
    case _ =>
  }

  // ----- the awaited promises and the main function

  predicate AllSettled(s: State) {
    forall w :: 0 <= w < |s.workers| ==> Settled(s.workers[w])
  }

  predicate LogWritten(log: AuditLog) {
    log.lines == [] && log.chain == [] && !log.stuck
  }

  predicate TicketInv(s: State) {
    && (forall w :: 0 <= w < |s.workers| && s.workers[w].AwaitingFlush? ==> s.workers[w].ticket <= s.log.enqueued)
    && (forall w :: 0 <= w < |s.workers| && s.workers[w].FlushRejected? ==> s.log.stuck)
  }

  /** The run ended, and not by an I/O error of the main function. */
  predicate EndedOrderly(s: State) {
    s.main.Ended? && s.main.ending != IoFailure
  }

  predicate MainInv(s: State) {
    && (!s.main.AwaitingWorkers? ==> AllSettled(s) && s.log.lines == [])
    && (s.main.AwaitingFinalFlush? ==> s.main.ticket == s.log.enqueued)
    && (s.main.Saving? || s.main.Closing? || EndedOrderly(s) ==> LogWritten(s.log))
    && (s.main.Closing? || EndedOrderly(s) ==> s.saved == Some(s.checkpoint))
    && (EndedOrderly(s) && s.main.ending != WorkerFailure ==>
          forall w :: 0 <= w < |s.workers| ==> s.workers[w].Finished? || s.workers[w].Aborted?)
    && (s.main == Ended(Completed) ==> forall w :: 0 <= w < |s.workers| ==> s.workers[w].Finished?)
  }

  lemma ResumeTickets(c: Config, s: State, w: nat, answer: Answer)
    requires TicketInv(s) && w < |s.workers| && Answers(s.workers[w], answer) && s.workers[w].item < |c.identities|
    ensures TicketInv(ResumeItem(c, s, w, answer))
  {
  }

  lemma TicketStep(c: Config, s: State, e: Event)
    requires AuditInv(c, s) && TicketInv(s) && InRange(c, s) && Enabled(c, s, e)
    ensures TicketInv(Apply(c, s, e))
  {
    if e.Resume? {
      ResumeTickets(c, s, e.w, e.answer);
    }
  }

  /** Settled workers do not move, and only their moves buffer lines. */
  lemma WorkersStay(c: Config, s: State, e: Event)
    requires InRange(c, s) && Enabled(c, s, e) && AllSettled(s)
    ensures Apply(c, s, e).workers == s.workers
    ensures s.log.lines == [] ==> Apply(c, s, e).log.lines == []
  {
  }

  lemma MainStep(c: Config, s: State, e: Event)
    requires LogInv(s.log) && TicketInv(s) && MainInv(s) && InRange(c, s) && Enabled(c, s, e)
    ensures MainInv(Apply(c, s, e))
  {
    if AllSettled(s) {
      WorkersStay(c, s, e);
    } else {
      assert s.main.AwaitingWorkers?;
      assert Apply(c, s, e).main.AwaitingWorkers?;
    }
  }
}
