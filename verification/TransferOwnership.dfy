/** Every claimed item is in exactly one place, and what happened to it is what its outcome says. */
module TransferOwnership {
  import opened Transfer

  predicate Recorded(s: State, i: nat) {
    exists k :: 0 <= k < |s.outcomes| && s.outcomes[k].item == i
  }

  predicate HeldBy(s: State, w: nat, i: nat)
    requires w < |s.workers|
  {
    Holding(s.workers[w]) && s.workers[w].item == i
  }

  predicate Held(s: State, i: nat) {
    exists w :: 0 <= w < |s.workers| && HeldBy(s, w, i)
  }

  predicate OwnInv(c: Config, s: State) {
    && s.cursor <= |c.identities|
    && (forall k :: 0 <= k < |s.outcomes| ==> s.outcomes[k].item < s.cursor)
    && (forall j, k :: 0 <= j < k < |s.outcomes| ==> s.outcomes[j].item != s.outcomes[k].item)
    && (forall w :: 0 <= w < |s.workers| && Holding(s.workers[w]) ==>
          s.workers[w].item < s.cursor && !Recorded(s, s.workers[w].item))
    && (forall v, w :: 0 <= v < w < |s.workers| && Holding(s.workers[v]) && Holding(s.workers[w]) ==>
          s.workers[v].item != s.workers[w].item)
    && (forall i: nat :: i < s.cursor ==> Recorded(s, i) || Held(s, i))
    && (forall w :: 0 <= w < |s.workers| && HasOutcome(s.workers[w]) ==> s.workers[w].outcome in s.outcomes)
    && (forall v, w :: 0 <= v < w < |s.workers| && HasOutcome(s.workers[v]) && HasOutcome(s.workers[w]) ==>
          s.workers[v].outcome.item != s.workers[w].outcome.item)
  }

  lemma SameOwn(c: Config, s: State, t: State)
    requires OwnInv(c, s) && t.outcomes == s.outcomes && t.cursor == s.cursor && t.workers == s.workers
    ensures OwnInv(c, t)
  {
    forall i: nat ensures Recorded(t, i) == Recorded(s, i) && (Held(s, i) ==> Held(t, i)) {
      if Held(s, i) {
        var v :| 0 <= v < |s.workers| && HeldBy(s, v, i);
        assert HeldBy(t, v, i);
      }
    }
  }

  /** A move of worker w that keeps its item, or that finishes without one. */
  lemma MoveOwn(c: Config, s: State, t: State, w: nat)
    requires OwnInv(c, s) && w < |s.workers| == |t.workers| && t.outcomes == s.outcomes && t.cursor == s.cursor
    requires t.workers == s.workers[w := t.workers[w]]
    requires Holding(s.workers[w]) <==> Holding(t.workers[w])
    requires Holding(s.workers[w]) ==> t.workers[w].item == s.workers[w].item
    requires HasOutcome(t.workers[w]) ==> HasOutcome(s.workers[w]) && t.workers[w].outcome == s.workers[w].outcome
    ensures OwnInv(c, t)
  {
    forall i: nat ensures Recorded(t, i) == Recorded(s, i) && (Held(s, i) ==> Held(t, i)) {
      if Held(s, i) {
        var v :| 0 <= v < |s.workers| && HeldBy(s, v, i);
        assert HeldBy(t, v, i);
      }
    }
  }

  /** A worker gives up its item for an outcome. */
  lemma PushOwn(c: Config, s: State, t: State, w: nat, o: Outcome)
    requires OwnInv(c, s) && w < |s.workers| == |t.workers| && t.outcomes == s.outcomes + [o] && t.cursor == s.cursor
    requires t.workers == s.workers[w := t.workers[w]] && HasOutcome(t.workers[w]) && t.workers[w].outcome == o
    requires HeldBy(s, w, o.item)
    ensures OwnInv(c, t)
  {
    forall i: nat ensures Recorded(t, i) <==> Recorded(s, i) || i == o.item
    {
      if Recorded(s, i) {
        var k :| 0 <= k < |s.outcomes| && s.outcomes[k].item == i;
        assert t.outcomes[k].item == i;
      }
      assert t.outcomes[|s.outcomes|].item == o.item;
    }
    forall i: nat | Held(s, i) && i != o.item ensures Held(t, i) {
      var v :| 0 <= v < |s.workers| && HeldBy(s, v, i);
      assert HeldBy(t, v, i);
    }
    forall v | 0 <= v < |t.workers| && v != w && HasOutcome(t.workers[v]) ensures t.workers[v].outcome.item != o.item {
      var p := t.workers[v].outcome;
      var k :| 0 <= k < |s.outcomes| && s.outcomes[k] == p;
      assert Recorded(s, p.item);
    }
  }

  lemma SettleOwn(c: Config, s: State, w: nat, o: Outcome)
    requires OwnInv(c, s) && w < |s.workers| && o.item < |c.identities|
    requires HeldBy(s, w, o.item)
    ensures OwnInv(c, Settle(c, s, w, o))
  {
    var pushed := SetPc(s.(outcomes := s.outcomes + [o]), w, AwaitingFlush(o, 0));
    PushOwn(c, s, pushed, w, o);
    MoveOwn(c, pushed, Settle(c, s, w, o), w);
  }

  lemma ResumeOwn(c: Config, s: State, w: nat, answer: Answer)
    requires OwnInv(c, s) && w < |s.workers| && Answers(s.workers[w], answer) && s.workers[w].item < |c.identities|
    ensures OwnInv(c, ResumeItem(c, s, w, answer))
  {
    var next := ExecuteItem(c, s.aborted, s.workers[w], answer);
    var s1 := s.(history := Remember(s.history, s.workers[w], answer, next));
    MoveOwn(c, s, s1, w);
    if next.Returned? {
      SettleOwn(c, s1, w, next.outcome);
    } else {
      MoveOwn(c, s1, SetPc(s1, w, next.pc), w);
    }
  }

  lemma ClaimOwn(c: Config, s: State, w: nat)
    requires OwnInv(c, s) && Enabled(c, s, Loop(w)) && InRange(c, s)
    ensures OwnInv(c, Apply(c, s, Loop(w)))
  {
    var t := Apply(c, s, Loop(w));
    if t.cursor == s.cursor {
      MoveOwn(c, s, t, w);
    } else {
      forall i: nat ensures Recorded(t, i) == Recorded(s, i) && (Held(s, i) ==> Held(t, i)) {
        if Held(s, i) {
          var v :| 0 <= v < |s.workers| && HeldBy(s, v, i);
          assert HeldBy(t, v, i);
        }
      }
      assert HeldBy(t, w, s.cursor);
    }
  }

  lemma OwnStep(c: Config, s: State, e: Event)
    requires OwnInv(c, s) && InRange(c, s) && Enabled(c, s, e)
    ensures OwnInv(c, Apply(c, s, e))
  {
    var t := Apply(c, s, e);
    match e
    case Resume(w, answer) => ResumeOwn(c, s, w, answer);
    case Loop(w) => ClaimOwn(c, s, w);
    case FlushDone(w) => MoveOwn(c, s, t, w);
    case FlushThrew(w) => MoveOwn(c, s, t, w);
    case ReportThrew(w) => MoveOwn(c, s, t, w);
    case _ => SameOwn(c, s, t);
  }
}
