/** Whole runs of the transfer engine: what holds in every reachable state, and that every run ends. */
module TransferRuns {
  import opened Transfer
  import opened TransferInvariants
  import opened TransferCounting
  import opened TransferOwnership
  import opened TransferGate
  import opened TransferCheckpoint

  lemma RangeStep(c: Config, s: State, e: Event)
    requires InRange(c, s) && Enabled(c, s, e)
    ensures InRange(c, Apply(c, s, e)) && |Apply(c, s, e).workers| == |s.workers|
  {
    if e.Resume? {
      var t := ResumeItem(c, s, e.w, e.answer);
      assert t.workers == s.workers[e.w := t.workers[e.w]];
      assert PcInRange(c, t.workers[e.w]);
    }
  }

  /** The state after the events es, if that is a run. */
  function Execute(c: Config, aborted: bool, es: seq<Event>): (r: Option<State>)
    ensures r.Some? ==> InRange(c, r.value) && |r.value.workers| == WorkerCount(c)
  {
    if es == [] then Some(Init(c, aborted))
    else
      var r := Execute(c, aborted, es[..|es| - 1]);
      var e := es[|es| - 1];
      if r.Some? && Enabled(c, r.value, e) then
        RangeStep(c, r.value, e);
        Some(Apply(c, r.value, e))
      else None
  }

  /** A worker leaves the loop only when the list is exhausted or the transfer is aborted. */
  predicate FinishInv(c: Config, s: State) {
    && (forall w :: 0 <= w < |s.workers| && s.workers[w].Finished? ==> s.aborted || s.cursor == |c.identities|)
    && (s.main == Ended(Completed) ==> s.cursor == |c.identities|)
  }

  lemma FinishStep(c: Config, s: State, e: Event)
    requires OwnInv(c, s) && MainInv(s) && FinishInv(c, s) && |s.workers| > 0 && InRange(c, s) && Enabled(c, s, e)
    ensures FinishInv(c, Apply(c, s, e))
  {
    var t := Apply(c, s, e);
    assert t.cursor >= s.cursor && (s.aborted ==> t.aborted);
    if e == Close && t.main == Ended(Completed) {
      assert Settled(s.workers[0]);
    }
  }

  predicate Inv(c: Config, s: State) {
    && AuditInv(c, s) && TicketInv(s) && MainInv(s) && CountInv(s)
    && OwnInv(c, s) && GateInv(c, s) && FinishInv(c, s)
  }

  lemma InitInv(c: Config, aborted: bool)
    ensures Inv(c, Init(c, aborted)) && CheckpointInv(c, Init(c, aborted))
  {
    InitCounts(c, aborted);
  }

  lemma InvStep(c: Config, s: State, e: Event)
    requires Inv(c, s) && |s.workers| > 0 && InRange(c, s) && Enabled(c, s, e)
    ensures Inv(c, Apply(c, s, e))
  {
    AuditStep(c, s, e);
    TicketStep(c, s, e);
    MainStep(c, s, e);
    CountStep(c, s, e);
    OwnStep(c, s, e);
    GateStep(c, s, e);
    FinishStep(c, s, e);
  }

  lemma {:induction false} RunInv(c: Config, aborted: bool, es: seq<Event>)
    requires Execute(c, aborted, es).Some?
    ensures Inv(c, Execute(c, aborted, es).value)
    ensures DistinctIdentities(c) ==> CheckpointInv(c, Execute(c, aborted, es).value)
  {
    if es == [] {
      InitInv(c, aborted);
    } else {
      var s := Execute(c, aborted, es[..|es| - 1]).value;
      RunInv(c, aborted, es[..|es| - 1]);
      InvStep(c, s, es[|es| - 1]);
      if DistinctIdentities(c) {
        CheckpointStep(c, s, es[|es| - 1]);
      }
    }
  }

  // ----- every run ends

  function Rank(pc: Pc): nat {
    match pc
    case Ready => 1
    case Scanning(_) => 8
    case Writing(_, phase, _) =>
      (match phase case MakingFolder => 7 case Copying => 6 case Statting => 5 case Uploading => 5 case Refused => 5)
    case AwaitingFlush(_, _) => 2
    case Reporting(_) => 1
    case _ => 0
  }

  function Ranks(ws: seq<Pc>): nat {
    if ws == [] then 0 else Ranks(ws[..|ws| - 1]) + Rank(ws[|ws| - 1])
  }

  lemma {:induction false} RanksSet(ws: seq<Pc>, w: nat, pc: Pc)
    requires w < |ws|
    ensures Ranks(ws[w := pc]) == Ranks(ws) - Rank(ws[w]) + Rank(pc)
  {
    var n := |ws| - 1;
    if w < n {
      RanksSet(ws[..n], w, pc);
      assert ws[w := pc][..n] == ws[..n][w := pc];
    } else {
      assert ws[w := pc][..n] == ws[..n];
    }
  }

  function MainRank(m: Main): nat {
    match m
    case AwaitingWorkers => 6
    case AwaitingFinalFlush(_) => 4
    case Saving => 3
    case Closing => 2
    case Ended(_) => 0
  }

  /** How many steps a run can still take, at most. */
  function Budget(c: Config, s: State): int {
    8 * (|c.identities| - s.cursor) + Ranks(s.workers) + |s.log.chain| + MainRank(s.main)
    + One(!s.aborted) + One(!s.log.stuck)
  }

  /** What worker w spends of the budget. */
  lemma WorkerBudget(c: Config, s: State, t: State, w: nat)
    requires w < |s.workers| == |t.workers| && t.workers == s.workers[w := t.workers[w]]
    requires t.aborted == s.aborted && t.log.stuck == s.log.stuck && t.main == s.main
    requires Rank(t.workers[w]) + |t.log.chain| < Rank(s.workers[w]) + |s.log.chain| + 8 * (t.cursor - s.cursor)
    ensures Budget(c, t) < Budget(c, s)
  {
    RanksSet(s.workers, w, t.workers[w]);
  }

  lemma ResumeBudget(c: Config, s: State, w: nat, answer: Answer)
    requires w < |s.workers| && Answers(s.workers[w], answer) && s.workers[w].item < |c.identities|
    ensures Budget(c, ResumeItem(c, s, w, answer)) < Budget(c, s)
  {
    var t := ResumeItem(c, s, w, answer);
    assert t.workers == s.workers[w := t.workers[w]];
    WorkerBudget(c, s, t, w);
  }

  lemma BudgetStep(c: Config, s: State, e: Event)
    requires InRange(c, s) && Enabled(c, s, e)
    ensures Budget(c, Apply(c, s, e)) < Budget(c, s)
  {
    var t := Apply(c, s, e);
    match e
    case Resume(w, answer) => ResumeBudget(c, s, w, answer);
    case Loop(w) => WorkerBudget(c, s, t, w);
    case FlushDone(w) => WorkerBudget(c, s, t, w);
    case FlushThrew(w) => WorkerBudget(c, s, t, w);
    case ReportThrew(w) => WorkerBudget(c, s, t, w);
    case _ =>
  }

  lemma {:induction false} InitRanks(n: nat)
    ensures Ranks(seq(n, _ => Ready)) == n
  {
    if n > 0 {
      InitRanks(n - 1);
      assert seq(n, _ => Ready)[..n - 1] == seq(n - 1, _ => Ready);
    }
  }

  /** No run is longer than 8 steps a file, one a worker, and 8 more. */
  lemma {:induction false} EveryRunIsBounded(c: Config, aborted: bool, es: seq<Event>)
    requires Execute(c, aborted, es).Some?
    ensures |es| + Budget(c, Execute(c, aborted, es).value) <= 8 * |c.identities| + WorkerCount(c) + 8
    ensures |es| <= 8 * |c.identities| + WorkerCount(c) + 8
  {
    if es == [] {
      InitRanks(WorkerCount(c));
    } else {
      var before := es[..|es| - 1];
      EveryRunIsBounded(c, aborted, before);
      RunInv(c, aborted, before);
      BudgetStep(c, Execute(c, aborted, before).value, es[|es| - 1]);
    }
    RunInv(c, aborted, es);
  }
}
