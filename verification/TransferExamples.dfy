/** Two short runs of the transfer engine that end in the states its theorems make exceptions for. */
module TransferExamples {
  import opened Text
  import opened Transfer
  import opened TransferRuns

  lemma Take(c: Config, es: seq<Event>, s: State, e: Event) returns (fs: seq<Event>, t: State)
    requires Execute(c, false, es) == Some(s) && InRange(c, s) && Enabled(c, s, e)
    ensures Execute(c, false, fs) == Some(t) && InRange(c, t) && t == Apply(c, s, e)
  {
    assert (es + [e])[..|es|] == es;
    fs, t := es + [e], Apply(c, s, e);
  }

  predicate OneFile(c: Config) {
    |c.identities| == 1 && c.requested == 1
  }

  /** The run up to the await on the scan of the only file. */
  lemma FirstScan(c: Config) returns (es: seq<Event>, s: State)
    requires OneFile(c)
    ensures Execute(c, false, es) == Some(s) && InRange(c, s)
    ensures s == Init(c, false).(cursor := 1, workers := [Scanning(0)])
  {
    assert Init(c, false).workers == [Ready];
    es, s := Take(c, [], Init(c, false), Loop(0));
  }

  /** Once the workers have settled, with at most one batch of audit lines left to write, the run can go to its end. */
  lemma RunOut(c: Config, before: seq<Event>, start: State) returns (es: seq<Event>)
    requires Execute(c, false, before) == Some(start) && InRange(c, start) && start.main == AwaitingWorkers
    requires start.log.chain == [] && !start.log.stuck && start.log.enqueued == start.log.flushed
    requires forall w :: 0 <= w < |start.workers| ==> Settled(start.workers[w])
    ensures Execute(c, false, es).Some?
    ensures var s := Execute(c, false, es).value;
            && s.main == Ended(EndingOf(start)) && s.saved == Some(start.checkpoint)
            && s.outcomes == start.outcomes && s.history == start.history && s.aborted == start.aborted
  {
    var s: State;
    es, s := Take(c, before, start, WorkersSettled);
    if start.log.lines != [] {
      es, s := Take(c, es, s, Append);
    }
    es, s := Take(c, es, s, FinalFlushDone);
    es, s := Take(c, es, s, Save);
    es, s := Take(c, es, s, Close);
  }

  /** The only worker is aborted before anything was logged: the run ends cancelled, without an outcome. */
  lemma EndCancelled(c: Config, before: seq<Event>, start: State) returns (es: seq<Event>)
    requires Execute(c, false, before) == Some(start) && InRange(c, start)
    requires start.workers == [Aborted(0)] && start.main == AwaitingWorkers && start.log == Init(c, false).log
    ensures Execute(c, false, es).Some?
    ensures var s := Execute(c, false, es).value;
            && s.main == Ended(Cancelled)
            && s.history == start.history && s.outcomes == start.outcomes && s.aborted == start.aborted
  {
    es := RunOut(c, before, start);
    assert start.workers[0].Aborted?;
  }

  /** An abort during the copy of the only file: its payload is at the sink, and it has no outcome. */
  lemma AbortDuringCopy(c: Config, response: Policy.Response) returns (es: seq<Event>)
    requires OneFile(c) && c.sink == FileShare && c.accepts(0) && c.decide(response).action == "allow"
    ensures Execute(c, false, es).Some?
    ensures var s := Execute(c, false, es).value;
            s.main == Ended(Cancelled) && 0 in s.history.landed && s.outcomes == []
  {
    var s: State;
    es, s := FirstScan(c);
    es, s := Take(c, es, s, Resume(0, ScanReturned(response)));
    es, s := Take(c, es, s, Resume(0, SinkReturned(0)));
    es, s := Take(c, es, s, Abort);
    es, s := Take(c, es, s, Resume(0, SinkReturned(0)));
    es := EndCancelled(c, es, s);
  }

  /** The run up to the await on the copy or the upload of the only file. */
  lemma FirstCopy(c: Config, response: Policy.Response) returns (es: seq<Event>, s: State)
    requires OneFile(c) && c.accepts(0) && c.decide(response).action == "allow"
    ensures Execute(c, false, es) == Some(s) && InRange(c, s)
    ensures var phase := if c.sink == FileShare then Copying else Uploading;
            s == Init(c, false).(cursor := 1, workers := [Writing(0, phase, c.decide(response))],
                                 history := History(map[0 := response], [0], {}, {}))
  {
    es, s := FirstScan(c);
    es, s := Take(c, es, s, Resume(0, ScanReturned(response)));
    if c.sink == FileShare {
      es, s := Take(c, es, s, Resume(0, SinkReturned(0)));
    }
  }

  lemma WriteFails(c: Config, s: State, message: string) returns (e: Event)
    requires |s.workers| == 1 && s.workers[0].Writing? && s.workers[0].item < |c.identities|
    requires s.workers[0].phase == Copying || s.workers[0].phase == Uploading
    ensures Enabled(c, s, e) && InRange(c, s)
    ensures var i := s.workers[0].item;
            Apply(c, s, e) == s.(workers := [Aborted(i)], history := s.history.(landed := s.history.landed + {i}))
  {
    e := Resume(0, SinkThrew(Failure(true, message), true));
  }

  /** Nobody aborts, but the copy or the upload fails with an error named like an abort and leaves something behind. */
  lemma FailedWriteLeavesPayload(c: Config, response: Policy.Response, message: string) returns (es: seq<Event>)
    requires OneFile(c) && c.accepts(0) && c.decide(response).action == "allow"
    ensures Execute(c, false, es).Some?
    ensures var s := Execute(c, false, es).value;
            !s.aborted && s.main == Ended(Cancelled) && 0 in s.history.landed && s.outcomes == []
  {
    var s: State;
    es, s := FirstCopy(c, response);
    var e := WriteFails(c, s, message);
    es, s := Take(c, es, s, e);
    es := EndCancelled(c, es, s);
  }

  /** A file named "__proto__" that is blocked: the transfer completes with its outcome and an empty checkpoint. */
  lemma ProtoHasNoRecord(c: Config, response: Policy.Response) returns (es: seq<Event>)
    requires OneFile(c) && c.identities[0] == PROTO && c.decide(response).action == "block"
    ensures Execute(c, false, es).Some?
    ensures var s := Execute(c, false, es).value;
            s.main == Ended(Completed) && |s.outcomes| == 1 && s.saved == Some(map[])
  {
    var s: State;
    es, s := FirstScan(c);
    es, s := Take(c, es, s, Resume(0, ScanReturned(response)));
    es, s := Take(c, es, s, Loop(0));
    assert s.workers == [Finished] && s.checkpoint == map[];
    es := RunOut(c, es, s);
  }
}
