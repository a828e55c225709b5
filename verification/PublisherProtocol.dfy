/** The store-and-forward publisher as a protocol: submitters, one worker, a spill file, an outside hand that
    adds corrupt lines to the file, and crashes. Each action is one lock region or one publish call. Payloads are
    represented by tickets, the numbers of their submissions. */
module PublisherProtocol {
  import opened Options
  import opened SpillLines

  const SPILL_DRAIN_BATCH_SIZE := 50

  /** Where the single worker thread is. */
  datatype Worker =
    | Idle
    | Publishing(ticket: nat)
    | Spilling(ticket: nat)
    | CheckingBacklog
    | Peeking
    | Draining(batch: seq<nat>, done: nat)
    | Discarding(done: nat)

  datatype Config = Config(capacity: nat, maxEntries: nat, hasSpill: bool)

  /** What happened so far. None of it is read by the actions. */
  datatype History = History(
    submitted: nat,
    dropped: seq<nat>,
    live: seq<nat>,
    failed: seq<nat>,
    spilled: seq<nat>,
    evicted: seq<nat>,
    replayed: seq<nat>,
    confirmed: seq<nat>,
    lost: seq<nat>,
    repeats: seq<nat>,
    crashes: nat,
    droppedBefore: nat,
    corruptions: nat)

  const NO_HISTORY := History(0, [], [], [], [], [], [], [], [], [], 0, 0, 0)

  datatype State = State(
    queue: seq<nat>,
    droppedTotal: nat,
    worker: Worker,
    lines: seq<Option<nat>>,
    count: nat,
    past: History)

  const START := State([], 0, Idle, [], 0, NO_HISTORY)

  datatype Action =
    | Submit
    | TakeFromQueue
    | PublishReturns(ok: bool)
    | Spill
    | CheckEmpty
    | Peek
    | ReplayReturns(ok: bool)
    | EndOfBatch
    | DiscardDelivered
    | CorruptFile(at: nat)
    | CrashAndRestart

  /** The ticket the worker holds in memory. */
  function InFlight(w: Worker): seq<nat> {
    match w
    case Publishing(t) => [t]
    case Spilling(t) => [t]
    case _ => []
  }

  /** How many payloads at the head of the file have been replayed but not discarded. */
  function Unconfirmed(w: Worker): nat {
    match w
    case Draining(_, done) => done
    case Discarding(done) => done
    case _ => 0
  }

  function SubmitOne(c: Config, s: State): State {
    var h := s.past.(submitted := s.past.submitted + 1);
    if |s.queue| < c.capacity
    then s.(queue := s.queue + [s.past.submitted], past := h)
    else s.(droppedTotal := s.droppedTotal + 1, past := h.(dropped := s.past.dropped + [s.past.submitted]))
  }

  function Published(c: Config, s: State, t: nat, ok: bool): State {
    if ok then
      s.(worker := if c.hasSpill then CheckingBacklog else Idle, past := s.past.(live := s.past.live + [t]))
    else if c.hasSpill then
      s.(worker := Spilling(t))
    else
      s.(worker := Idle, past := s.past.(failed := s.past.failed + [t]))
  }

  function SpillOne(c: Config, s: State, t: nat): State {
    var lines := s.lines + [Some(t)];
    if OverLimit(s.count + 1, c.maxEntries) then
      var kept := Newest(lines, c.maxEntries);
      s.(worker := Idle, lines := kept, count := |kept|,
         past := s.past.(spilled := s.past.spilled + [t],
                         evicted := s.past.evicted + Entries(Oldest(lines, c.maxEntries))))
    else
      s.(worker := Idle, lines := lines, count := s.count + 1, past := s.past.(spilled := s.past.spilled + [t]))
  }

  function Replayed(s: State, batch: seq<nat>, done: nat, ok: bool): State
    requires done < |batch|
  {
    if ok then s.(worker := Draining(batch, done + 1), past := s.past.(replayed := s.past.replayed + [batch[done]]))
    else s.(worker := Discarding(done))
  }

  function DiscardDone(s: State, done: nat): State {
    if done > 0 then
      var remaining := Discard(s.lines, done);
      s.(worker := Idle, lines := remaining, count := |remaining|,
         past := s.past.(confirmed := s.past.confirmed + Take(Entries(s.lines), done)))
    else
      s.(worker := Idle)
  }

  function Corrupt(s: State, at: nat): State
    requires at <= |s.lines|
  {
    s.(lines := s.lines[..at] + [None] + s.lines[at..], past := s.past.(corruptions := s.past.corruptions + 1))
  }

  function Crash(s: State): State {
    State([], 0, Idle, s.lines, |s.lines|,
          s.past.(lost := s.past.lost + InFlight(s.worker) + s.queue,
                  repeats := s.past.repeats + Take(Entries(s.lines), Unconfirmed(s.worker)),
                  crashes := s.past.crashes + 1,
                  droppedBefore := s.past.droppedBefore + s.droppedTotal))
  }

  predicate Enabled(s: State, a: Action) {
    match a
    case Submit => true
    case TakeFromQueue => s.worker.Idle? && s.queue != []
    case PublishReturns(_) => s.worker.Publishing?
    case Spill => s.worker.Spilling?
    case CheckEmpty => s.worker.CheckingBacklog?
    case Peek => s.worker.Peeking?
    case ReplayReturns(_) => s.worker.Draining? && s.worker.done < |s.worker.batch|
    case EndOfBatch => s.worker.Draining? && s.worker.done == |s.worker.batch|
    case DiscardDelivered => s.worker.Discarding?
    case CorruptFile(at) => at <= |s.lines|
    case CrashAndRestart => true
  }

  function Next(c: Config, s: State, a: Action): State
    requires Enabled(s, a)
  {
    match a
    case Submit => SubmitOne(c, s)
    case TakeFromQueue => s.(queue := s.queue[1..], worker := Publishing(s.queue[0]))
    case PublishReturns(ok) => Published(c, s, s.worker.ticket, ok)
    case Spill => SpillOne(c, s, s.worker.ticket)
    case CheckEmpty => s.(worker := if s.count == 0 then Idle else Peeking)
    case Peek => s.(worker := Draining(Take(Entries(s.lines), SPILL_DRAIN_BATCH_SIZE), 0))
    case ReplayReturns(ok) => Replayed(s, s.worker.batch, s.worker.done, ok)
    case EndOfBatch => s.(worker := Discarding(s.worker.done))
    case DiscardDelivered => DiscardDone(s, s.worker.done)
    case CorruptFile(at) => Corrupt(s, at)
    case CrashAndRestart => Crash(s)
  }

  /** The state after a sequence of actions, each enabled in turn; disabled ones are skipped. */
  function Run(c: Config, actions: seq<Action>): State {
    if actions == [] then START
    else
      var s := Run(c, actions[..|actions| - 1]);
      var a := actions[|actions| - 1];
      if Enabled(s, a) then Next(c, s, a) else s
  }
}
