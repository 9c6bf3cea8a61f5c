/** The counting invariants of the transfer engine: no claimed item and no outcome is lost from the books. */
module TransferCounting {
  import opened Transfer

  /** Classes of workers to count: holding a claimed item that has no outcome; holding an untallied outcome. */
  datatype Kind = InHand | Untallied | UntalliedIn(state: ItemState)

  predicate Is(kind: Kind, pc: Pc) {
    match kind
    case InHand => Holding(pc)
    case Untallied => HasOutcome(pc)
    case UntalliedIn(state) => HasOutcome(pc) && pc.outcome.state == state
  }

  function One(b: bool): nat { if b then 1 else 0 }

  function Workers(ws: seq<Pc>, kind: Kind): (n: nat)
    ensures n <= |ws|
  {
    if ws == [] then 0 else Workers(ws[..|ws| - 1], kind) + One(Is(kind, ws[|ws| - 1]))
  }

  /** outcomes.filter(o => o.state === state).length */
  function Recount(outcomes: seq<Outcome>, state: ItemState): nat {
    if outcomes == [] then 0
    else Recount(outcomes[..|outcomes| - 1], state) + One(outcomes[|outcomes| - 1].state == state)
  }

  function Counter(counts: Counts, state: ItemState): nat {
    match state
    case Allowed => counts.allowed
    case Blocked => counts.blocked
    case Failed => counts.failed
    case Skipped => counts.skipped
    case Excluded => counts.excluded
  }

  lemma {:induction false} WorkersSet(ws: seq<Pc>, w: nat, pc: Pc, kind: Kind)
    requires w < |ws|
    ensures Workers(ws[w := pc], kind) == Workers(ws, kind) - One(Is(kind, ws[w])) + One(Is(kind, pc))
  {
    var n := |ws| - 1;
    if w < n {
      WorkersSet(ws[..n], w, pc, kind);
      assert ws[w := pc][..n] == ws[..n][w := pc];
    } else {
      assert ws[w := pc][..n] == ws[..n];
    }
  }

  lemma RecountPush(outcomes: seq<Outcome>, o: Outcome, state: ItemState)
    ensures Recount(outcomes + [o], state) == Recount(outcomes, state) + One(o.state == state)
  {
  }

  predicate TotalsInv(s: State) {
    && s.cursor == |s.outcomes| + Workers(s.workers, InHand)
    && |s.outcomes| == s.counts.completed + Workers(s.workers, Untallied)
    && var k := s.counts; k.completed == k.allowed + k.blocked + k.failed + k.skipped + k.excluded
  }

  predicate StateInv(s: State, state: ItemState) {
    Recount(s.outcomes, state) == Counter(s.counts, state) + Workers(s.workers, UntalliedIn(state))
  }

  predicate CountInv(s: State) {
    TotalsInv(s) && forall state :: StateInv(s, state)
  }

  /** A worker moves without making or tallying an outcome. */
  lemma MoveCounts(s: State, t: State, w: nat)
    requires CountInv(s) && w < |s.workers| == |t.workers| && t.workers == s.workers[w := t.workers[w]]
    requires t.outcomes == s.outcomes && t.counts == s.counts
    requires forall state :: Is(UntalliedIn(state), s.workers[w]) == Is(UntalliedIn(state), t.workers[w])
    requires t.cursor == s.cursor - One(Holding(s.workers[w])) + One(Holding(t.workers[w]))
    ensures CountInv(t)
  {
    assert HasOutcome(s.workers[w]) ==> Is(UntalliedIn(s.workers[w].outcome.state), t.workers[w]);
    assert HasOutcome(t.workers[w]) ==> Is(UntalliedIn(t.workers[w].outcome.state), s.workers[w]);
    WorkersSet(s.workers, w, t.workers[w], InHand);
    WorkersSet(s.workers, w, t.workers[w], Untallied);
    forall state ensures StateInv(t, state) {
      assert StateInv(s, state);
      WorkersSet(s.workers, w, t.workers[w], UntalliedIn(state));
    }
  }

  /** A worker lets go of its item and owes the books an outcome. */
  lemma PushCounts(s: State, t: State, w: nat, o: Outcome)
    requires CountInv(s) && w < |s.workers| == |t.workers| && t.workers == s.workers[w := t.workers[w]]
    requires t.outcomes == s.outcomes + [o] && t.counts == s.counts && t.cursor == s.cursor
    requires Holding(s.workers[w]) && HasOutcome(t.workers[w]) && t.workers[w].outcome == o
    ensures CountInv(t)
  {
    WorkersSet(s.workers, w, t.workers[w], InHand);
    WorkersSet(s.workers, w, t.workers[w], Untallied);
    forall state ensures StateInv(t, state) {
      assert StateInv(s, state);
      RecountPush(s.outcomes, o, state);
      WorkersSet(s.workers, w, t.workers[w], UntalliedIn(state));
    }
  }

  lemma TallyCounts(c: Config, s: State, w: nat, o: Outcome)
    requires CountInv(s) && w < |s.workers| && HasOutcome(s.workers[w]) && s.workers[w].outcome == o
    requires o.item < |c.identities|
    ensures CountInv(Tally(c, s, w, o))
  {
    var t := Tally(c, s, w, o);
    WorkersSet(s.workers, w, t.workers[w], InHand);
    WorkersSet(s.workers, w, t.workers[w], Untallied);
    forall state ensures StateInv(t, state) {
      assert StateInv(s, state);
      WorkersSet(s.workers, w, t.workers[w], UntalliedIn(state));
    }
  }

  lemma SettleCounts(c: Config, s: State, w: nat, o: Outcome)
    requires CountInv(s) && w < |s.workers| && Holding(s.workers[w]) && o.item < |c.identities|
    ensures CountInv(Settle(c, s, w, o))
  {
    var log := PushLine(s.log, c.render(o));
    var pushed := SetPc(s.(outcomes := s.outcomes + [o], log := log), w, AwaitingFlush(o, 0));
    PushCounts(s, pushed, w, o);
    if |log.lines| >= FLUSH_AT {
      MoveCounts(pushed, Settle(c, s, w, o), w);
    } else {
      TallyCounts(c, pushed, w, o);
      assert pushed.workers[w := Reporting(o.item)] == s.workers[w := Reporting(o.item)];
      assert Tally(c, pushed, w, o) == Settle(c, s, w, o);
    }
  }

  lemma ResumeCounts(c: Config, s: State, w: nat, answer: Answer)
    requires CountInv(s) && w < |s.workers| && Answers(s.workers[w], answer) && s.workers[w].item < |c.identities|
    ensures CountInv(ResumeItem(c, s, w, answer))
  {
    var next := ExecuteItem(c, s.aborted, s.workers[w], answer);
    if next.Returned? {
      var s1 := s.(history := Remember(s.history, s.workers[w], answer, next));
      MoveCounts(s, s1, w);
      SettleCounts(c, s1, w, next.outcome);
    } else {
      MoveCounts(s, ResumeItem(c, s, w, answer), w);
    }
  }

  lemma CountStep(c: Config, s: State, e: Event)
    requires CountInv(s) && InRange(c, s) && Enabled(c, s, e)
    ensures CountInv(Apply(c, s, e))
  {
    var t := Apply(c, s, e);
    match e
    case Resume(w, answer) => ResumeCounts(c, s, w, answer);
    case FlushDone(w) => TallyCounts(c, s, w, s.workers[w].outcome);
    case Loop(w) => MoveCounts(s, t, w);
    case FlushThrew(w) => MoveCounts(s, t, w);
    case ReportThrew(w) => MoveCounts(s, t, w);
    case _ =>
      assert TotalsInv(t);
      forall state ensures StateInv(t, state) {
        assert StateInv(s, state);
      }
  }

  lemma {:induction false} NoneOf(ws: seq<Pc>, kind: Kind)
    requires forall w :: 0 <= w < |ws| ==> !Is(kind, ws[w])
    ensures Workers(ws, kind) == 0
  {
    if ws != [] {
      NoneOf(ws[..|ws| - 1], kind);
    }
  }

  lemma InitCounts(c: Config, aborted: bool)
    ensures CountInv(Init(c, aborted))
  {
    var ws := Init(c, aborted).workers;
    forall kind ensures Workers(ws, kind) == 0 {
      NoneOf(ws, kind);
    }
    assert forall state :: StateInv(Init(c, aborted), state);
  }
}
