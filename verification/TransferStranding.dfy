/** When a transfer leaves a payload at the sink whose item has no outcome. */
module TransferStranding {
  import opened Transfer
  import opened TransferInvariants
  import opened TransferOwnership
  import opened TransferGate
  import opened TransferRuns

  /** The catch clause drops the item instead of recording it as failed. */
  predicate GivesUp(s: State, failure: Failure) {
    s.aborted || failure.abortNamed
  }

  /**
   The branches that give up an item whose payload is at the sink: the check for an abort right after the copy or the
   upload, and, while aborted or with an abort-named error, a copy or upload that fails and leaves something, or a stat
   that fails.
   */
  predicate Abandons(s: State, e: Event, i: nat) {
    && e.Resume? && e.w < |s.workers| && s.workers[e.w].Writing? && s.workers[e.w].item == i
    && match s.workers[e.w].phase
       case Statting => e.answer.SinkThrew? && GivesUp(s, e.answer.failure)
       case MakingFolder => false
       case Refused => false
       case _ =>
         || (e.answer.SinkReturned? && s.aborted)
         || (e.answer.SinkThrew? && e.answer.left && GivesUp(s, e.answer.failure))
  }

  /** Some step of the run took such a branch for item i. */
  predicate Abandoned(c: Config, aborted: bool, es: seq<Event>, i: nat) {
    es != [] &&
    var before := es[..|es| - 1];
    Abandoned(c, aborted, before, i)
    || (Execute(c, aborted, before).Some? && Abandons(Execute(c, aborted, before).value, es[|es| - 1], i))
  }

  predicate Stranded(s: State, i: nat) {
    i in s.history.landed && Aborted(i) in s.workers
  }

  lemma AbortedAfter(ws: seq<Pc>, w: nat, pc: Pc, i: nat)
    requires w < |ws| && ws[w] != Aborted(i)
    ensures Aborted(i) in ws[w := pc] <==> Aborted(i) in ws || pc == Aborted(i)
  {
    var after := ws[w := pc];
    if Aborted(i) in ws {
      var v :| 0 <= v < |ws| && ws[v] == Aborted(i);
      assert after[v] == Aborted(i);
    }
    assert after[w] == pc;
  }

  lemma NotYetAborted(c: Config, s: State, w: nat)
    requires OwnInv(c, s) && w < |s.workers| && Holding(s.workers[w]) && !s.workers[w].Aborted?
    ensures Aborted(s.workers[w].item) !in s.workers
  {
    assert forall v :: 0 <= v < |s.workers| && Holding(s.workers[v]) && v != w ==>
        s.workers[v].item != s.workers[w].item;
  }

  /** What one resumption does to its own item. */
  lemma ResumeStrands(c: Config, s: State, w: nat, answer: Answer)
    requires OwnInv(c, s) && GateInv(c, s) && InRange(c, s) && w < |s.workers| && Answers(s.workers[w], answer)
    ensures var i, t := s.workers[w].item, ResumeItem(c, s, w, answer);
            !Stranded(s, i) && (Stranded(t, i) <==> Abandons(s, Resume(w, answer), i))
  {
    var pc, t := s.workers[w], ResumeItem(c, s, w, answer);
    assert PcOk(c, s.history, pc);
    NotYetAborted(c, s, w);
    assert t.workers == s.workers[w := t.workers[w]];
    AbortedAfter(s.workers, w, t.workers[w], pc.item);
  }

  lemma ResumeLeavesOthers(c: Config, s: State, w: nat, answer: Answer, i: nat)
    requires InRange(c, s) && w < |s.workers| && Answers(s.workers[w], answer) && i != s.workers[w].item
    ensures Stranded(ResumeItem(c, s, w, answer), i) <==> Stranded(s, i)
  {
    var t := ResumeItem(c, s, w, answer);
    assert t.workers == s.workers[w := t.workers[w]];
    AbortedAfter(s.workers, w, t.workers[w], i);
  }

  lemma StrandedStep(c: Config, s: State, e: Event, i: nat)
    requires OwnInv(c, s) && GateInv(c, s) && InRange(c, s) && Enabled(c, s, e)
    ensures Stranded(Apply(c, s, e), i) <==> Stranded(s, i) || Abandons(s, e, i)
  {
    match e
    case Resume(w, answer) =>
      if i == s.workers[w].item {
        ResumeStrands(c, s, w, answer);
      } else {
        ResumeLeavesOthers(c, s, w, answer, i);
      }
    case Loop(w) => AbortedAfter(s.workers, w, Apply(c, s, e).workers[w], i);
    case FlushDone(w) => AbortedAfter(s.workers, w, Apply(c, s, e).workers[w], i);
    case FlushThrew(w) => AbortedAfter(s.workers, w, Apply(c, s, e).workers[w], i);
    case ReportThrew(w) => AbortedAfter(s.workers, w, Apply(c, s, e).workers[w], i);
    case _ =>
  }

  lemma {:induction false} StrandedExactly(c: Config, aborted: bool, es: seq<Event>, i: nat)
    requires Execute(c, aborted, es).Some?
    ensures Stranded(Execute(c, aborted, es).value, i) <==> Abandoned(c, aborted, es, i)
  {
    if es != [] {
      var before := es[..|es| - 1];
      StrandedExactly(c, aborted, before, i);
      RunInv(c, aborted, before);
      StrandedStep(c, Execute(c, aborted, before).value, es[|es| - 1], i);
    }
  }

  /**
   Once the workers have settled, a payload at the sink has no outcome exactly when its worker took one of those
   branches on the way.
   */
  lemma PayloadWithoutOutcome(c: Config, aborted: bool, es: seq<Event>, i: nat)
    requires Execute(c, aborted, es).Some? && AllSettled(Execute(c, aborted, es).value)
    ensures var s := Execute(c, aborted, es).value;
            i in s.history.landed && !Recorded(s, i) <==> Abandoned(c, aborted, es, i)
  {
    RunInv(c, aborted, es);
    StrandedExactly(c, aborted, es, i);
    var s := Execute(c, aborted, es).value;
    if i in s.history.landed && !Recorded(s, i) {
      assert Cleared(c, s.history, i);
      assert Held(s, i);
      var w :| 0 <= w < |s.workers| && HeldBy(s, w, i);
      assert s.workers[w] == Aborted(i);
    }
  }

  predicate AbortNamed(e: Event) {
    && e.Resume?
    && match e.answer
       case ScanThrew(failure) => failure.abortNamed
       case SinkThrew(failure, _) => failure.abortNamed
       case _ => false
  }

  lemma {:induction false} NothingAbandoned(c: Config, es: seq<Event>, i: nat)
    requires Execute(c, false, es).Some? && forall e :: e in es ==> !e.Abort? && !AbortNamed(e)
    ensures !Execute(c, false, es).value.aborted && !Abandoned(c, false, es, i)
  {
    if es != [] {
      NothingAbandoned(c, es[..|es| - 1], i);
      assert es[|es| - 1] in es;
    }
  }

  /** A caller that never aborts, with no abort-named error, gets an outcome for every payload at the sink. */
  lemma PayloadsRecorded(c: Config, es: seq<Event>, i: nat)
    requires Execute(c, false, es).Some? && forall e :: e in es ==> !e.Abort? && !AbortNamed(e)
    requires AllSettled(Execute(c, false, es).value) && i in Execute(c, false, es).value.history.landed
    ensures Recorded(Execute(c, false, es).value, i)
  {
    NothingAbandoned(c, es, i);
    PayloadWithoutOutcome(c, false, es, i);
  }
}
