/** A worker that awaited a flush goes on to its checkpoint only when its audit line is in the file. */
module TransferDurability {
  import opened Text
  import opened Transfer
  import opened TransferInvariants
  import opened TransferRuns

  /** The text of the file once the batches up to ticket are appended. */
  function TextUpTo(log: AuditLog, ticket: nat): string {
    if ticket <= log.flushed then log.file
    else log.file + Concat(log.chain[..Min(ticket - log.flushed, |log.chain|)])
  }

  /** The batches that the worker awaits carry the audit lines of outcomes[..k], its own last. */
  predicate Covers(c: Config, s: State, pc: Pc, k: nat)
    requires pc.AwaitingFlush? && 0 < k <= |s.outcomes|
  {
    s.outcomes[k - 1] == pc.outcome && Rendered(c, s.outcomes[..k]) <= TextUpTo(s.log, pc.ticket)
  }

  predicate Covered(c: Config, s: State, pc: Pc) {
    pc.AwaitingFlush? ==> exists k :: 0 < k <= |s.outcomes| && Covers(c, s, pc, k)
  }

  predicate DurableInv(c: Config, s: State) {
    forall w :: 0 <= w < |s.workers| ==> Covered(c, s, s.workers[w])
  }

  lemma AppendGrows(log: AuditLog, ticket: nat)
    requires log.chain != []
    ensures TextUpTo(log, ticket) <= TextUpTo(AppendHead(log), ticket)
  {
    if log.flushed < ticket {
      var m := Min(ticket - log.flushed, |log.chain|);
      var rest := log.chain[1..];
      assert log.chain[..m][0] == log.chain[0] && log.chain[..m][1..] == rest[..m - 1];
      assert log.file + (log.chain[0] + Concat(rest[..m - 1])) == (log.file + log.chain[0]) + Concat(rest[..m - 1]);
    }
  }

  lemma FailGrows(log: AuditLog, ticket: nat, written: nat)
    requires log.chain != [] && written <= |log.chain[0]|
    ensures TextUpTo(log, ticket) <= TextUpTo(FailAppend(log, written), ticket)
  {
    if log.flushed < ticket {
      var m := Min(ticket - log.flushed, |log.chain|);
      var head := log.chain[0];
      var tail := Concat(log.chain[1..][..m - 1]);
      var failed := FailAppend(log, written).chain;
      assert log.chain[..m][0] == head && log.chain[..m][1..] == log.chain[1..][..m - 1];
      assert failed[..m][0] == head[written..] && failed[..m][1..] == log.chain[1..][..m - 1];
      assert head == head[..written] + head[written..];
      assert log.file + (head + tail) == (log.file + head[..written]) + (head[written..] + tail);
    }
  }

  lemma FlushKeepsUpTo(log: AuditLog, ticket: nat)
    requires ticket <= log.enqueued && LogInv(log)
    ensures TextUpTo(log, ticket) == TextUpTo(FlushAudit(log), ticket)
  {
    if log.flushed < ticket && log.lines != [] {
      var m := ticket - log.flushed;
      assert FlushAudit(log).chain[..m] == log.chain[..m];
    }
  }

  /** More outcomes and more text do not undo what an awaited flush covers. */
  lemma StillCovered(c: Config, s: State, t: State, pc: Pc)
    requires Covered(c, s, pc) && s.outcomes <= t.outcomes
    requires pc.AwaitingFlush? ==> TextUpTo(s.log, pc.ticket) <= TextUpTo(t.log, pc.ticket)
    ensures Covered(c, t, pc)
  {
    if pc.AwaitingFlush? {
      var k :| 0 < k <= |s.outcomes| && Covers(c, s, pc, k);
      assert t.outcomes[..k] == s.outcomes[..k];
      assert Covers(c, t, pc, k);
    }
  }

  /** Right after a flush the buffer is empty and the ticket covers the whole chain. */
  lemma NewlyCovered(c: Config, t: State, pc: Pc)
    requires AuditInv(c, t) && t.log.lines == [] && pc.AwaitingFlush? && pc.ticket == t.log.enqueued
    requires t.outcomes != [] && t.outcomes[|t.outcomes| - 1] == pc.outcome
    ensures Covered(c, t, pc)
  {
    assert t.outcomes[..|t.outcomes|] == t.outcomes;
    assert t.log.chain[..|t.log.chain|] == t.log.chain;
    assert Concat(t.log.chain) + "" == Concat(t.log.chain);
    assert Covers(c, t, pc, |t.outcomes|);
  }

  lemma ResumeDurable(c: Config, s: State, w: nat, answer: Answer)
    requires DurableInv(c, s) && AuditInv(c, s) && TicketInv(s)
    requires w < |s.workers| && Answers(s.workers[w], answer) && s.workers[w].item < |c.identities|
    ensures DurableInv(c, ResumeItem(c, s, w, answer))
  {
    var t := ResumeItem(c, s, w, answer);
    ResumeAudit(c, s, w, answer);
    forall v | 0 <= v < |t.workers| ensures Covered(c, t, t.workers[v]) {
      var pc := t.workers[v];
      if pc.AwaitingFlush? {
        if v == w {
          NewlyCovered(c, t, pc);
        } else {
          UpToAfterSettle(c, s, w, answer, pc.ticket);
          StillCovered(c, s, t, pc);
        }
      }
    }
  }

  lemma UpToAfterSettle(c: Config, s: State, w: nat, answer: Answer, ticket: nat)
    requires LogInv(s.log) && ticket <= s.log.enqueued
    requires w < |s.workers| && Answers(s.workers[w], answer) && s.workers[w].item < |c.identities|
    ensures TextUpTo(s.log, ticket) == TextUpTo(ResumeItem(c, s, w, answer).log, ticket)
  {
    var log := ResumeItem(c, s, w, answer).log;
    if ticket > s.log.flushed {
      assert log.chain[..ticket - s.log.flushed] == s.log.chain[..ticket - s.log.flushed];
    }
  }

  lemma DurableStep(c: Config, s: State, e: Event)
    requires DurableInv(c, s) && AuditInv(c, s) && TicketInv(s) && InRange(c, s) && Enabled(c, s, e)
    ensures DurableInv(c, Apply(c, s, e))
  {
    var t := Apply(c, s, e);
    if e.Resume? {
      ResumeDurable(c, s, e.w, e.answer);
    } else {
      forall v | 0 <= v < |t.workers| ensures Covered(c, t, t.workers[v]) {
        var pc := t.workers[v];
        if pc.AwaitingFlush? {
          assert pc == s.workers[v];
          match e {
            case Append => AppendGrows(s.log, pc.ticket);
            case AppendThrew(written) => FailGrows(s.log, pc.ticket, written);
            case WorkersSettled => FlushKeepsUpTo(s.log, pc.ticket);
            case _ =>
          }
          StillCovered(c, s, t, pc);
        }
      }
    }
  }

  lemma {:induction false} RunDurable(c: Config, aborted: bool, es: seq<Event>)
    requires Execute(c, aborted, es).Some?
    ensures DurableInv(c, Execute(c, aborted, es).value)
  {
    if es != [] {
      var before := es[..|es| - 1];
      RunDurable(c, aborted, before);
      RunInv(c, aborted, before);
      DurableStep(c, Execute(c, aborted, before).value, es[|es| - 1]);
    }
  }

  /** When the await on a flush resolves, the worker's own audit line is already in the file. */
  lemma FlushedBeforeCheckpoint(c: Config, aborted: bool, es: seq<Event>, w: nat)
    requires Execute(c, aborted, es + [FlushDone(w)]).Some?
    ensures var s := Execute(c, aborted, es).value;
            exists k :: && 0 < k <= |s.outcomes|
                        && s.outcomes[k - 1] == s.workers[w].outcome
                        && Rendered(c, s.outcomes[..k]) <= s.log.file
  {
    assert (es + [FlushDone(w)])[..|es|] == es;
    RunDurable(c, aborted, es);
    var s := Execute(c, aborted, es).value;
    assert Covered(c, s, s.workers[w]);
    var k :| 0 < k <= |s.outcomes| && Covers(c, s, s.workers[w], k);
  }
}
