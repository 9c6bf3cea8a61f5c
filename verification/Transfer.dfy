/**
 The guarded transfer engine as a transition system. A step is the code that runs between two awaits
 of transfer_runner.js; which worker runs next, what the scanner and the sink answer, which audit append
 fails, and when the caller aborts are all left open: they are the parameters of an event.
 */
module Transfer {
  import opened Text
  import Policy

  /** A rejected promise. abortNamed: error.name is "AbortError". */
  datatype Failure = Failure(abortNamed: bool, message: string)

  datatype ItemState = Allowed | Blocked | Failed | Skipped | Excluded

  datatype Option<+T> = None | Some(value: T)

  /** item is the index of the file in the list that listFiles returned. */
  datatype Outcome = Outcome(
    item: nat, state: ItemState, decision: Option<Policy.Decision>, bytes: nat, error: Option<string>)

  datatype Sink = FileShare | CloudBucket

  /** The awaits inside sinkWriter.write; Refused is its synchronous throw on a destination it will not accept. */
  datatype WritePhase = MakingFolder | Copying | Statting | Uploading | Refused

  /** Where a worker is suspended, or how it settled. */
  datatype Pc =
    | Ready
    | Scanning(item: nat)
    | Writing(item: nat, phase: WritePhase, decision: Policy.Decision)
    | AwaitingFlush(outcome: Outcome, ticket: nat)
    | Reporting(last: nat)
    | Finished
    | Aborted(item: nat)
    | FlushRejected(outcome: Outcome)
    | PerfRejected(last: nat)

  datatype Counts = Counts(completed: nat, allowed: nat, blocked: nat, failed: nat, skipped: nat, excluded: nat)

  datatype Ending = Completed | Cancelled | WorkerFailure | IoFailure

  datatype Main = AwaitingWorkers | AwaitingFinalFlush(ticket: nat) | Saving | Closing | Ended(ending: Ending)

  /**
   identities: object_identity of each listed file. requested: the parsed concurrency setting, 0 when it is
   missing or unreadable. accepts: whether the sink takes the destination of an item. sizes: size_bytes, what
   the cloud sink reports as written. render: an audit event as its line of text.
   */
  datatype Config = Config(
    identities: seq<string>, requested: int, decide: Policy.Response -> Policy.Decision, sink: Sink,
    accepts: nat -> bool, sizes: nat -> nat, render: Outcome -> string)

  /**
   lines: auditLines, not yet in a batch. chain: the batches hung on the auditWrite promise that have not been
   (completely) appended; after a failed append the chain is stuck and nothing on it will ever run. enqueued and
   flushed count the batches. file: the text of the audit file.
   */
  datatype AuditLog = AuditLog(
    lines: seq<string>, chain: seq<string>, stuck: bool, enqueued: nat, flushed: nat, file: string)

  /** The scan answers, the payload copies begun (in order), the items with a payload at the sink, the writes that returned. */
  datatype History = History(
    responses: map<nat, Policy.Response>, started: seq<nat>, landed: set<nat>, delivered: set<nat>)

  datatype State = State(
    cursor: nat, workers: seq<Pc>, outcomes: seq<Outcome>, log: AuditLog,
    checkpoint: map<string, Outcome>, saved: Option<map<string, Outcome>>, counts: Counts,
    aborted: bool, main: Main, history: History)

  /**
   How the promise that a worker awaits inside executeItem settles. bytes: what stat answers. left: whether a copy or an
   upload that failed has left a payload at the sink all the same, in part or in whole.
   */
  datatype Answer =
    | ScanReturned(response: Policy.Response)
    | ScanThrew(failure: Failure)
    | SinkReturned(bytes: nat)
    | SinkThrew(failure: Failure, left: bool)

  datatype Event =
    | Loop(w: nat)
    | Resume(w: nat, answer: Answer)
    | FlushDone(w: nat)
    | FlushThrew(w: nat)
    | ReportThrew(w: nat)
    | Append
    | AppendThrew(written: nat)
    | Abort
    | WorkersSettled
    | FinalFlushDone
    | FinalFlushThrew
    | Save
    | MainThrew
    | Close

  const FLUSH_AT := 100

  const REFUSED := Failure(false, "Destination refused")

  function Max(a: int, b: int): int { if a < b then b else a }

  function Min(a: int, b: int): int { if a < b then a else b }

  /** concurrency, then the length of the workers array. */
  function WorkerCount(c: Config): (n: nat)
    ensures 1 <= n <= Max(1, |c.identities|) && (c.requested > 0 ==> n <= c.requested)
    ensures c.requested == 0 ==> n <= 4
    ensures c.requested < 0 ==> n == 1
    ensures n < (if c.requested == 0 then 4 else c.requested) ==> n == Max(1, |c.identities|)
  {
    var concurrency := Max(1, if c.requested == 0 then 4 else c.requested);
    Min(concurrency, Max(1, |c.identities|))
  }

  function Init(c: Config, aborted: bool): State {
    State(0, seq(WorkerCount(c), _ => Ready), [], AuditLog([], [], false, 0, 0, ""), map[], None,
          Counts(0, 0, 0, 0, 0, 0), aborted, AwaitingWorkers, History(map[], [], {}, {}))
  }

  // ----- executeItem

  /** Either suspended at the next await (or aborted), or returned an outcome. */
  datatype Resumed = Suspended(pc: Pc) | Returned(outcome: Outcome)

  function StateForAction(action: string): ItemState {
    if action == "exclude" then Excluded else Blocked
  }

  function DecidedOutcome(item: nat, decision: Policy.Decision, state: ItemState, bytes: nat): Outcome {
    Outcome(item, state, Some(decision), bytes, None)
  }

  function FailedOutcome(item: nat, message: string): Outcome {
    Outcome(item, Failed, None, 0, Some(message))
  }

  /** The catch clause. */
  function Catch(aborted: bool, item: nat, failure: Failure): Resumed {
    if aborted || failure.abortNamed then Suspended(Aborted(item)) else Returned(FailedOutcome(item, failure.message))
  }

  /** Once the response is parsed: decide, and either begin the write or return. */
  function AfterScan(c: Config, aborted: bool, item: nat, decision: Policy.Decision): Resumed {
    if decision.action != "allow" then
      Returned(DecidedOutcome(item, decision, StateForAction(decision.action), 0))
    else if aborted then Suspended(Aborted(item))
    else if !c.accepts(item) then Suspended(Writing(item, Refused, decision))
    else Suspended(Writing(item, if c.sink == FileShare then MakingFolder else Uploading, decision))
  }

  /** An await inside sinkWriter.write resolved. */
  function AfterSink(c: Config, aborted: bool, pc: Pc, bytes: nat): Resumed
    requires pc.Writing? && pc.phase != Refused
  {
    if pc.phase == Statting then Returned(DecidedOutcome(pc.item, pc.decision, Allowed, bytes))
    else if aborted then Suspended(Aborted(pc.item))
    else if pc.phase == MakingFolder then Suspended(pc.(phase := Copying))
    else if pc.phase == Copying then Suspended(pc.(phase := Statting))
    else Returned(DecidedOutcome(pc.item, pc.decision, Allowed, c.sizes(pc.item)))
  }

  /** The answers that the promise awaited at pc can settle with. */
  predicate Answers(pc: Pc, answer: Answer) {
    match answer
    case ScanReturned(_) => pc.Scanning?
    case ScanThrew(_) => pc.Scanning?
    case SinkReturned(_) => pc.Writing? && pc.phase != Refused
    case SinkThrew(failure, left) =>
      && pc.Writing? && (pc.phase == Refused ==> failure == REFUSED)
      && (left ==> pc.phase == Copying || pc.phase == Uploading)
  }

  function ExecuteItem(c: Config, aborted: bool, pc: Pc, answer: Answer): Resumed
    requires Answers(pc, answer)
  {
    match answer
    case ScanReturned(response) => AfterScan(c, aborted, pc.item, c.decide(response))
    case SinkReturned(bytes) => AfterSink(c, aborted, pc, bytes)
    case ScanThrew(failure) => Catch(aborted, pc.item, failure)
    case SinkThrew(failure, _) => Catch(aborted, pc.item, failure)
  }

  /** A copy or an upload settled and a payload is at the sink. */
  predicate Lands(pc: Pc, answer: Answer)
    requires Answers(pc, answer)
  {
    && pc.Writing? && (pc.phase == Copying || pc.phase == Uploading)
    && (answer.SinkReturned? || (answer.SinkThrew? && answer.left))
  }

  function Remember(h: History, pc: Pc, answer: Answer, next: Resumed): History
    requires Answers(pc, answer)
  {
    var i := pc.item;
    History(
      if answer.ScanReturned? then h.responses[i := answer.response] else h.responses,
      if next.Suspended? && next.pc.Writing? && (next.pc.phase == Copying || next.pc.phase == Uploading)
        then h.started + [i] else h.started,
      if Lands(pc, answer) then h.landed + {i} else h.landed,
      if answer.SinkReturned? && next.Returned? then h.delivered + {i} else h.delivered)
  }

  // ----- the rest of the worker loop

  function SetPc(s: State, w: nat, pc: Pc): State
    requires w < |s.workers|
  {
    s.(workers := s.workers[w := pc])
  }

  function PushLine(log: AuditLog, line: string): AuditLog {
    log.(lines := log.lines + [line])
  }

  /** flushAudit up to its await. */
  function FlushAudit(log: AuditLog): AuditLog {
    if log.lines == [] then log
    else log.(chain := log.chain + [Concat(log.lines)], enqueued := log.enqueued + 1, lines := [])
  }

  function AppendHead(log: AuditLog): AuditLog
    requires log.chain != []
  {
    log.(file := log.file + log.chain[0], chain := log.chain[1..], flushed := log.flushed + 1)
  }

  /** appendFile rejects after the first written characters of the batch reached the file. */
  function FailAppend(log: AuditLog, written: nat): AuditLog
    requires log.chain != [] && written <= |log.chain[0]|
  {
    log.(file := log.file + log.chain[0][..written],
         chain := [log.chain[0][written..]] + log.chain[1..], stuck := true)
  }

  /** records[identity] = record on a plain JavaScript object: the key "__proto__" sets no own property. */
  function Assign(records: map<string, Outcome>, identity: string, record: Outcome): map<string, Outcome> {
    if identity == PROTO then records else records[identity := record]
  }

  function Bump(counts: Counts, state: ItemState): Counts {
    var c := counts.(completed := counts.completed + 1);
    match state
    case Allowed => c.(allowed := c.allowed + 1)
    case Blocked => c.(blocked := c.blocked + 1)
    case Failed => c.(failed := c.failed + 1)
    case Skipped => c.(skipped := c.skipped + 1)
    case Excluded => c.(excluded := c.excluded + 1)
  }

  /** The rest of the loop body after the flush: checkpoint record, counters, then the await on emitPerf. */
  function Tally(c: Config, s: State, w: nat, outcome: Outcome): State
    requires w < |s.workers| && outcome.item < |c.identities|
  {
    SetPc(s, w, Reporting(outcome.item))
    .(checkpoint := Assign(s.checkpoint, c.identities[outcome.item], outcome),
      counts := Bump(s.counts, outcome.state))
  }

  /** The loop body from outcomes.push on. */
  function Settle(c: Config, s: State, w: nat, outcome: Outcome): State
    requires w < |s.workers| && outcome.item < |c.identities|
  {
    var log := PushLine(s.log, c.render(outcome));
    var s1 := s.(outcomes := s.outcomes + [outcome], log := log);
    if |log.lines| >= FLUSH_AT then
      var flushed := FlushAudit(log);
      SetPc(s1.(log := flushed), w, AwaitingFlush(outcome, flushed.enqueued))
    else
      Tally(c, s1, w, outcome)
  }

  function ResumeItem(c: Config, s: State, w: nat, answer: Answer): State
    requires w < |s.workers| && Answers(s.workers[w], answer) && s.workers[w].item < |c.identities|
  {
    var next := ExecuteItem(c, s.aborted, s.workers[w], answer);
    var s1 := s.(history := Remember(s.history, s.workers[w], answer, next));
    match next
    case Suspended(pc) => SetPc(s1, w, pc)
    case Returned(outcome) => Settle(c, s1, w, outcome)
  }

  // ----- the steps

  predicate Settled(pc: Pc) {
    pc.Finished? || pc.Aborted? || pc.FlushRejected? || pc.PerfRejected?
  }

  predicate HasOutcome(pc: Pc) {
    pc.AwaitingFlush? || pc.FlushRejected?
  }

  predicate Holding(pc: Pc) {
    pc.Scanning? || pc.Writing? || pc.Aborted?
  }

  /** Every item a program counter names is one of the listed files. */
  predicate PcInRange(c: Config, pc: Pc) {
    && (Holding(pc) ==> pc.item < |c.identities|)
    && (HasOutcome(pc) ==> pc.outcome.item < |c.identities|)
  }

  predicate InRange(c: Config, s: State) {
    forall w :: 0 <= w < |s.workers| ==> PcInRange(c, s.workers[w])
  }

  predicate Enabled(c: Config, s: State, e: Event) {
    match e
    case Loop(w) => w < |s.workers| && (s.workers[w].Ready? || s.workers[w].Reporting?)
    case Resume(w, answer) => w < |s.workers| && Answers(s.workers[w], answer)
    case FlushDone(w) => w < |s.workers| && s.workers[w].AwaitingFlush? && s.workers[w].ticket <= s.log.flushed
    case FlushThrew(w) =>
      w < |s.workers| && s.workers[w].AwaitingFlush? && s.log.flushed < s.workers[w].ticket && s.log.stuck
    case ReportThrew(w) => w < |s.workers| && s.workers[w].Reporting?
    case Append => s.log.chain != [] && !s.log.stuck
    case AppendThrew(written) => s.log.chain != [] && !s.log.stuck && written <= |s.log.chain[0]|
    case Abort => !s.aborted
    case WorkersSettled => s.main.AwaitingWorkers? && forall w :: 0 <= w < |s.workers| ==> Settled(s.workers[w])
    case FinalFlushDone => s.main.AwaitingFinalFlush? && s.main.ticket <= s.log.flushed
    case FinalFlushThrew => s.main.AwaitingFinalFlush? && s.log.flushed < s.main.ticket && s.log.stuck
    case Save => s.main.Saving?
    case MainThrew => s.main.Saving? || s.main.Closing?
    case Close => s.main.Closing?
  }

  /** The last lines of runGuardedTransfer: rethrow, report a cancellation, or return the report. */
  function EndingOf(s: State): Ending {
    if exists w :: 0 <= w < |s.workers| && (s.workers[w].FlushRejected? || s.workers[w].PerfRejected?) then WorkerFailure
    else if s.aborted || exists w :: 0 <= w < |s.workers| && s.workers[w].Aborted? then Cancelled
    else Completed
  }

  function Apply(c: Config, s: State, e: Event): State
    requires Enabled(c, s, e) && InRange(c, s)
  {
    match e
    case Loop(w) =>
      if s.cursor < |c.identities| && !s.aborted
      then SetPc(s, w, Scanning(s.cursor)).(cursor := s.cursor + 1)
      else SetPc(s, w, Finished)
    case Resume(w, answer) => ResumeItem(c, s, w, answer)
    case FlushDone(w) => Tally(c, s, w, s.workers[w].outcome)
    case FlushThrew(w) => SetPc(s, w, FlushRejected(s.workers[w].outcome))
    case ReportThrew(w) => SetPc(s, w, PerfRejected(s.workers[w].last))
    case Append => s.(log := AppendHead(s.log))
    case AppendThrew(written) => s.(log := FailAppend(s.log, written))
    case Abort => s.(aborted := true)
    case WorkersSettled =>
      var log := FlushAudit(s.log);
      s.(log := log, main := AwaitingFinalFlush(log.enqueued))
    case FinalFlushDone => s.(main := Saving)
    case FinalFlushThrew => s.(main := Ended(IoFailure))
    case Save => s.(saved := Some(s.checkpoint), main := Closing)
    case MainThrew => s.(main := Ended(IoFailure))
    case Close => s.(main := Ended(EndingOf(s)))
  }
}
