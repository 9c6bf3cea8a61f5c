/** The checkpoint map against the outcomes. */
module TransferCheckpoint {
  import opened Lists
  import opened Text
  import opened Transfer
  import opened TransferOwnership

  /** What listFiles guarantees of the identities it hands out. */
  predicate DistinctIdentities(c: Config) {
    NoRepeats(c.identities)
  }

  /** Some worker has yet to tally the outcome. */
  predicate Owed(s: State, o: Outcome) {
    exists w :: 0 <= w < |s.workers| && HasOutcome(s.workers[w]) && s.workers[w].outcome == o
  }

  predicate OnRecord(c: Config, records: map<string, Outcome>, o: Outcome)
    requires o.item < |c.identities|
  {
    c.identities[o.item] in records && records[c.identities[o.item]] == o
  }

  predicate RecordSound(c: Config, s: State, id: string)
    requires id in s.checkpoint
  {
    && s.checkpoint[id] in s.outcomes
    && s.checkpoint[id].item < |c.identities| && c.identities[s.checkpoint[id].item] == id
    && id != PROTO && !Owed(s, s.checkpoint[id])
  }

  predicate CheckpointInv(c: Config, s: State) {
    && (forall k :: 0 <= k < |s.outcomes| ==> s.outcomes[k].item < |c.identities|)
    && (forall k :: 0 <= k < |s.outcomes| ==>
          c.identities[s.outcomes[k].item] == PROTO || Owed(s, s.outcomes[k])
          || OnRecord(c, s.checkpoint, s.outcomes[k]))
    && (forall id :: id in s.checkpoint ==> RecordSound(c, s, id))
  }

  lemma SameCheckpoint(c: Config, s: State, t: State)
    requires CheckpointInv(c, s) && t.outcomes == s.outcomes && t.checkpoint == s.checkpoint
    requires forall o :: Owed(s, o) <==> Owed(t, o)
    ensures CheckpointInv(c, t)
  {
  }

  /** A move that neither takes on nor settles an outcome. */
  lemma MoveCheckpoint(c: Config, s: State, t: State, w: nat)
    requires CheckpointInv(c, s) && w < |s.workers| == |t.workers|
    requires t.outcomes == s.outcomes && t.checkpoint == s.checkpoint && t.workers == s.workers[w := t.workers[w]]
    requires HasOutcome(t.workers[w]) == HasOutcome(s.workers[w])
    requires HasOutcome(s.workers[w]) ==> t.workers[w].outcome == s.workers[w].outcome
    ensures CheckpointInv(c, t)
  {
    forall o ensures Owed(s, o) <==> Owed(t, o) {
      if Owed(s, o) {
        var v :| 0 <= v < |s.workers| && HasOutcome(s.workers[v]) && s.workers[v].outcome == o;
        assert HasOutcome(t.workers[v]) && t.workers[v].outcome == o;
      }
      if Owed(t, o) {
        var v :| 0 <= v < |t.workers| && HasOutcome(t.workers[v]) && t.workers[v].outcome == o;
        assert HasOutcome(s.workers[v]) && s.workers[v].outcome == o;
      }
    }
    SameCheckpoint(c, s, t);
  }

  lemma PushCheckpoint(c: Config, s: State, t: State, w: nat, o: Outcome)
    requires OwnInv(c, s) && CheckpointInv(c, s) && w < |s.workers| == |t.workers| && HeldBy(s, w, o.item)
    requires t.outcomes == s.outcomes + [o] && t.checkpoint == s.checkpoint && t.workers == s.workers[w := t.workers[w]]
    requires HasOutcome(t.workers[w]) && t.workers[w].outcome == o
    ensures CheckpointInv(c, t)
  {
    forall p ensures Owed(t, p) <==> Owed(s, p) || p == o {
      if Owed(s, p) {
        var v :| 0 <= v < |s.workers| && HasOutcome(s.workers[v]) && s.workers[v].outcome == p;
        assert HasOutcome(t.workers[v]) && t.workers[v].outcome == p;
      }
      assert HasOutcome(t.workers[w]) && t.workers[w].outcome == o;
    }
    forall id | id in t.checkpoint ensures RecordSound(c, t, id) {
      var p := s.checkpoint[id];
      assert RecordSound(c, s, id);
      var k :| 0 <= k < |s.outcomes| && s.outcomes[k] == p;
      assert t.outcomes[k] == p;
      assert Recorded(s, p.item);
    }
  }

  lemma TallyCheckpoint(c: Config, s: State, w: nat, o: Outcome)
    requires DistinctIdentities(c) && OwnInv(c, s) && CheckpointInv(c, s)
    requires w < |s.workers| && HasOutcome(s.workers[w]) && s.workers[w].outcome == o && o.item < |c.identities|
    ensures CheckpointInv(c, Tally(c, s, w, o))
  {
    var t := Tally(c, s, w, o);
    forall p | p in s.outcomes ensures Owed(t, p) <==> Owed(s, p) && p != o {
      if Owed(s, p) && p != o {
        var v :| 0 <= v < |s.workers| && HasOutcome(s.workers[v]) && s.workers[v].outcome == p;
        assert HasOutcome(t.workers[v]) && t.workers[v].outcome == p;
      }
    }
    forall id | id in t.checkpoint ensures RecordSound(c, t, id) {
      if id in s.checkpoint {
        assert RecordSound(c, s, id);
      }
    }
    forall k | 0 <= k < |t.outcomes|
      ensures c.identities[t.outcomes[k].item] == PROTO || Owed(t, t.outcomes[k])
              || OnRecord(c, t.checkpoint, t.outcomes[k])
    {
      var p := s.outcomes[k];
      if OnRecord(c, s.checkpoint, p) {
        assert RecordSound(c, s, c.identities[p.item]);
        assert p != o;
        assert p.item != o.item;
      }
    }
  }

  lemma SettleCheckpoint(c: Config, s: State, w: nat, o: Outcome)
    requires DistinctIdentities(c) && OwnInv(c, s) && CheckpointInv(c, s)
    requires w < |s.workers| && HeldBy(s, w, o.item) && o.item < |c.identities|
    ensures CheckpointInv(c, Settle(c, s, w, o))
  {
    var log := PushLine(s.log, c.render(o));
    var pushed := SetPc(s.(outcomes := s.outcomes + [o], log := log), w, AwaitingFlush(o, 0));
    PushCheckpoint(c, s, pushed, w, o);
    if |log.lines| >= FLUSH_AT {
      MoveCheckpoint(c, pushed, Settle(c, s, w, o), w);
    } else {
      PushOwn(c, s, pushed, w, o);
      TallyCheckpoint(c, pushed, w, o);
      assert pushed.workers[w := Reporting(o.item)] == s.workers[w := Reporting(o.item)];
      assert Tally(c, pushed, w, o) == Settle(c, s, w, o);
    }
  }

  lemma ResumeCheckpoint(c: Config, s: State, w: nat, answer: Answer)
    requires DistinctIdentities(c) && OwnInv(c, s) && CheckpointInv(c, s)
    requires w < |s.workers| && Answers(s.workers[w], answer) && s.workers[w].item < |c.identities|
    ensures CheckpointInv(c, ResumeItem(c, s, w, answer))
  {
    var next := ExecuteItem(c, s.aborted, s.workers[w], answer);
    var s1 := s.(history := Remember(s.history, s.workers[w], answer, next));
    MoveCheckpoint(c, s, s1, w);
    if next.Returned? {
      MoveOwn(c, s, s1, w);
      SettleCheckpoint(c, s1, w, next.outcome);
    } else {
      MoveCheckpoint(c, s1, ResumeItem(c, s, w, answer), w);
    }
  }

  lemma CheckpointStep(c: Config, s: State, e: Event)
    requires DistinctIdentities(c) && OwnInv(c, s) && CheckpointInv(c, s) && InRange(c, s) && Enabled(c, s, e)
    ensures CheckpointInv(c, Apply(c, s, e))
  {
    var t := Apply(c, s, e);
    match e
    case Resume(w, answer) => ResumeCheckpoint(c, s, w, answer);
    case FlushDone(w) => TallyCheckpoint(c, s, w, s.workers[w].outcome);
    case Loop(w) => MoveCheckpoint(c, s, t, w);
    case FlushThrew(w) => MoveCheckpoint(c, s, t, w);
    case ReportThrew(w) => MoveCheckpoint(c, s, t, w);
    case _ => SameCheckpoint(c, s, t);
  }
}
