/** The scan gate: what may reach the sink, and how that shows in the outcomes. */
module TransferGate {
  import opened Transfer
  import opened TransferOwnership

  /** The scanner answered for item i and the final decision lets it through. */
  predicate Cleared(c: Config, h: History, i: nat) {
    i in h.responses && c.decide(h.responses[i]).action == "allow"
  }

  predicate Untouched(h: History, i: nat) {
    i !in h.started && i !in h.landed && i !in h.delivered
  }

  predicate HistoryOk(c: Config, h: History) {
    && (forall i :: i in h.started ==> Cleared(c, h, i) && c.accepts(i))
    && (forall i, j :: 0 <= i < j < |h.started| ==> h.started[i] != h.started[j])
    && (forall i :: i in h.landed ==> i in h.started)
    && (forall i :: i in h.delivered ==> i in h.landed)
  }

  /** Only an allowed item has bytes, and exactly the failed ones have an error. */
  predicate Consistent(o: Outcome) {
    (o.error.Some? <==> o.state == Failed) && (o.state != Allowed ==> o.bytes == 0)
  }

  predicate OutcomeOk(c: Config, h: History, o: Outcome) {
    Consistent(o) &&
    match o.state
    case Allowed => o.item in h.delivered && Cleared(c, h, o.item) && o.decision == Some(c.decide(h.responses[o.item]))
    case Failed => o.decision == None && o.item !in h.delivered
    case Skipped => false
    case _ =>
      && Untouched(h, o.item)
      && o.item in h.responses
      && var d := c.decide(h.responses[o.item]);
         o.decision == Some(d) && d.action != "allow" && (o.state == Excluded <==> d.action == "exclude")
  }

  predicate PcOk(c: Config, h: History, pc: Pc) {
    match pc
    case Scanning(i) => i !in h.responses && Untouched(h, i)
    case Writing(i, phase, d) =>
      && Cleared(c, h, i) && d == c.decide(h.responses[i]) && i !in h.delivered
      && (phase != Refused ==> c.accepts(i) && (phase == Uploading <==> c.sink == CloudBucket))
      && (phase == MakingFolder || phase == Refused ==> Untouched(h, i))
      && (phase == Copying || phase == Uploading ==> i in h.started && i !in h.landed)
      && (phase == Statting ==> i in h.landed)
    case Aborted(i) => i !in h.delivered
    case _ => true
  }

  predicate GateInv(c: Config, s: State) {
    && HistoryOk(c, s.history)
    && (forall i :: i in s.history.responses ==> i < s.cursor)
    && (forall i :: i in s.history.delivered ==> Recorded(s, i))
    && (forall k :: 0 <= k < |s.outcomes| ==> OutcomeOk(c, s.history, s.outcomes[k]))
    && (forall w :: 0 <= w < |s.workers| ==> PcOk(c, s.history, s.workers[w]))
  }

  /** Two histories that agree on item i. */
  predicate Agree(g: History, h: History, i: nat) {
    && (i in g.responses <==> i in h.responses)
    && (i in g.responses ==> g.responses[i] == h.responses[i])
    && (i in g.started <==> i in h.started)
    && (i in g.landed <==> i in h.landed)
    && (i in g.delivered <==> i in h.delivered)
  }

  /** executeItem touches the history of its own item only, and leaves it in order. */
  ghost predicate Remembered(c: Config, h: History, g: History, item: nat, next: Resumed) {
    && HistoryOk(c, g)
    && (forall j :: j != item ==> Agree(h, g, j))
    && (item in g.delivered && item !in h.delivered ==> next.Returned?)
    && (if next.Returned? then next.outcome.item == item && OutcomeOk(c, g, next.outcome)
        else Holding(next.pc) && next.pc.item == item && PcOk(c, g, next.pc))
  }

  lemma RememberScan(c: Config, h: History, aborted: bool, pc: Pc, answer: Answer)
    requires HistoryOk(c, h) && PcOk(c, h, pc) && pc.Scanning? && answer.ScanReturned?
    ensures var next := ExecuteItem(c, aborted, pc, answer);
            Remembered(c, h, Remember(h, pc, answer, next), pc.item, next)
  {
    var d := c.decide(answer.response);
    var next := AfterScan(c, aborted, pc.item, d);
    var g := Remember(h, pc, answer, next);
    assert g.started == h.started || g.started == h.started + [pc.item];
    assert c.decide(g.responses[pc.item]) == d;
  }

  lemma RememberSink(c: Config, h: History, aborted: bool, pc: Pc, answer: Answer)
    requires HistoryOk(c, h) && PcOk(c, h, pc) && pc.Writing? && pc.phase != Refused && answer.SinkReturned?
    ensures var next := ExecuteItem(c, aborted, pc, answer);
            Remembered(c, h, Remember(h, pc, answer, next), pc.item, next)
  {
    var next := AfterSink(c, aborted, pc, answer.bytes);
    var g := Remember(h, pc, answer, next);
    assert g.started == h.started || g.started == h.started + [pc.item];
  }

  lemma RememberThrow(c: Config, h: History, aborted: bool, pc: Pc, answer: Answer)
    requires HistoryOk(c, h) && PcOk(c, h, pc) && Answers(pc, answer) && (answer.ScanThrew? || answer.SinkThrew?)
    ensures var next := ExecuteItem(c, aborted, pc, answer);
            Remembered(c, h, Remember(h, pc, answer, next), pc.item, next)
  {
  }

  lemma RememberOk(c: Config, h: History, aborted: bool, pc: Pc, answer: Answer)
    requires HistoryOk(c, h) && PcOk(c, h, pc) && Answers(pc, answer)
    ensures var next := ExecuteItem(c, aborted, pc, answer);
            Remembered(c, h, Remember(h, pc, answer, next), pc.item, next)
  {
    match answer
    case ScanReturned(_) => RememberScan(c, h, aborted, pc, answer);
    case SinkReturned(_) => RememberSink(c, h, aborted, pc, answer);
    case _ => RememberThrow(c, h, aborted, pc, answer);
  }

  lemma AgreePc(c: Config, g: History, h: History, pc: Pc)
    requires Holding(pc) ==> Agree(g, h, pc.item)
    ensures PcOk(c, g, pc) == PcOk(c, h, pc)
  {
  }

  lemma AgreeOutcome(c: Config, g: History, h: History, o: Outcome)
    requires Agree(g, h, o.item) && HistoryOk(c, g) && HistoryOk(c, h)
    ensures OutcomeOk(c, g, o) == OutcomeOk(c, h, o)
  {
  }

  /** Worker w's step changed its own item's history, and perhaps made an outcome of it. */
  lemma ResumeGateFrom(c: Config, s: State, t: State, w: nat, next: Resumed)
    requires OwnInv(c, s) && GateInv(c, s)
    requires w < |s.workers| == |t.workers| && Holding(s.workers[w]) && t.cursor == s.cursor
    requires Remembered(c, s.history, t.history, s.workers[w].item, next)
    requires t.outcomes == if next.Returned? then s.outcomes + [next.outcome] else s.outcomes
    requires t.workers == s.workers[w := t.workers[w]] && PcOk(c, t.history, t.workers[w])
    ensures GateInv(c, t)
  {
    var g := t.history;
    forall v | 0 <= v < |t.workers| ensures PcOk(c, g, t.workers[v]) {
      if v != w {
        AgreePc(c, s.history, g, s.workers[v]);
      }
    }
    forall k | 0 <= k < |t.outcomes| ensures OutcomeOk(c, g, t.outcomes[k]) {
      if k < |s.outcomes| {
        assert Recorded(s, s.outcomes[k].item);
        AgreeOutcome(c, s.history, g, s.outcomes[k]);
      }
    }
    var item := s.workers[w].item;
    forall i | i in g.responses ensures i < t.cursor {
      assert i == item || Agree(s.history, g, i);
    }
    forall i | i in g.delivered ensures Recorded(t, i) {
      assert i == item || Agree(s.history, g, i);
      if i in s.history.delivered {
        var k :| 0 <= k < |s.outcomes| && s.outcomes[k].item == i;
        assert t.outcomes[k].item == i;
      } else {
        assert t.outcomes[|s.outcomes|].item == i;
      }
    }
  }

  lemma ResumeGate(c: Config, s: State, w: nat, answer: Answer)
    requires OwnInv(c, s) && GateInv(c, s)
    requires w < |s.workers| && Answers(s.workers[w], answer) && s.workers[w].item < |c.identities|
    ensures GateInv(c, ResumeItem(c, s, w, answer))
  {
    var next := ExecuteItem(c, s.aborted, s.workers[w], answer);
    RememberOk(c, s.history, s.aborted, s.workers[w], answer);
    ResumeGateFrom(c, s, ResumeItem(c, s, w, answer), w, next);
  }

  lemma GateStep(c: Config, s: State, e: Event)
    requires OwnInv(c, s) && GateInv(c, s) && InRange(c, s) && Enabled(c, s, e)
    ensures GateInv(c, Apply(c, s, e))
  {
    if e.Resume? {
      ResumeGate(c, s, e.w, e.answer);
    } else {
      var t := Apply(c, s, e);
      assert t.history == s.history && t.outcomes == s.outcomes && s.cursor <= t.cursor;
      forall i | Recorded(s, i) ensures Recorded(t, i) {
        var k :| 0 <= k < |s.outcomes| && s.outcomes[k].item == i;
        assert t.outcomes[k].item == i;
      }
    }
  }
}
