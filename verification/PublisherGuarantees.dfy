/** Main results about the publisher, over every interleaving. */
module PublisherGuarantees {
  import opened Options
  import opened SpillLines
  import opened PublisherProtocol

  // ----- Conservation, ticket by ticket

  /** How often `t` occurs in `xs`. */
  function Copies(xs: seq<nat>, t: nat): nat { multiset(xs)[t] }

  lemma CopiesAdd(a: seq<nat>, b: seq<nat>, t: nat)
    ensures Copies(a + b, t) == Copies(a, t) + Copies(b, t)
  {
  }

  lemma CopiesOne(x: nat, t: nat)
    ensures Copies([x], t) == if x == t then 1 else 0
  {
  }

  lemma CopiesNone(t: nat)
    ensures Copies([], t) == 0
  {
  }

  /** Places of `t` other than the spill file: refused, queued, in flight, delivered live, discarded for
      want of a spill file, or in memory at a crash. */
  function Elsewhere(s: State, t: nat): nat {
    Copies(s.past.dropped, t) + Copies(s.queue, t) + Copies(InFlight(s.worker), t) +
    Copies(s.past.live, t) + Copies(s.past.failed, t) + Copies(s.past.lost, t)
  }

  /** Places of `t` once spilled: evicted, on disk, or delivered by replay and discarded. */
  function InSpill(s: State, t: nat): nat {
    Copies(s.past.evicted, t) + Copies(Entries(s.lines), t) + Copies(s.past.confirmed, t)
  }

  function Issued(s: State, t: nat): nat { if t < s.past.submitted then 1 else 0 }

  /** Every submitted payload is in exactly one place, or was spilled once. */
  ghost predicate Balanced(s: State, t: nat) {
    Elsewhere(s, t) + Copies(s.past.spilled, t) == Issued(s, t)
  }

  ghost predicate SpillBalanced(s: State, t: nat) {
    Copies(s.past.spilled, t) == InSpill(s, t)
  }

  /** Every replay is a confirmed delivery, a delivery still to be confirmed, or a repeat after a crash. */
  ghost predicate ReplayBalanced(s: State, t: nat) {
    Copies(s.past.replayed, t) ==
      Copies(s.past.confirmed, t) + Copies(Take(Entries(s.lines), Unconfirmed(s.worker)), t) + Copies(s.past.repeats, t)
  }

  /** No payload was caught undiscarded by more crashes than there were. */
  ghost predicate RepeatsCounted(s: State, t: nat) {
    Copies(s.past.repeats, t) <= s.past.crashes
  }

  /** The batch being drained is the head of the file. */
  ghost predicate WorkerOnHead(s: State) {
    match s.worker
    case Draining(batch, done) => done <= |batch| <= SPILL_DRAIN_BATCH_SIZE && batch <= Entries(s.lines)
    case Discarding(done) => done <= |Entries(s.lines)| && done <= SPILL_DRAIN_BATCH_SIZE
    case _ => true
  }

  ghost predicate Counted(c: Config, s: State) {
    && |s.queue| <= c.capacity
    && s.past.droppedBefore + s.droppedTotal == |s.past.dropped|
    && |s.past.repeats| <= SPILL_DRAIN_BATCH_SIZE * s.past.crashes
    && (s.past.corruptions == 0 ==> s.count == |s.lines| && !OverLimit(s.count, c.maxEntries))
  }

  /** Zero in balance: the known places of `t` against its submission. */
  function Balance(s: State, t: nat): int {
    Elsewhere(s, t) + Copies(s.past.spilled, t) - Issued(s, t)
  }

  /** No action creates or destroys a payload, in any state. */
  lemma BalanceNext(c: Config, s: State, a: Action, t: nat)
    requires Enabled(s, a)
    ensures Balance(Next(c, s, a), t) == Balance(s, t)
  {
    hide Copies, Entries, Discard, Take, Newest, Oldest, OverLimit;
    CopiesNone(t);
    match a
    case Submit =>
      CopiesOne(s.past.submitted, t);
      CopiesAdd(s.queue, [s.past.submitted], t);
      CopiesAdd(s.past.dropped, [s.past.submitted], t);
    case TakeFromQueue =>
      CopiesAdd([s.queue[0]], s.queue[1..], t);
      assert s.queue == [s.queue[0]] + s.queue[1..];
    case PublishReturns(_) =>
      CopiesAdd(s.past.live, [s.worker.ticket], t);
      CopiesAdd(s.past.failed, [s.worker.ticket], t);
    case Spill =>
      CopiesAdd(s.past.spilled, [s.worker.ticket], t);
    case CrashAndRestart =>
      CopiesAdd(s.past.lost + InFlight(s.worker), s.queue, t);
      CopiesAdd(s.past.lost, InFlight(s.worker), t);
    case _ =>
  }

  lemma BalancedNext(c: Config, s: State, a: Action, t: nat)
    requires Enabled(s, a) && Balanced(s, t)
    ensures Balanced(Next(c, s, a), t)
  {
    hide Next, Elsewhere, Copies;
    BalanceNext(c, s, a, t);
  }

  lemma SpillBalancedSpill(c: Config, s: State, x: nat, t: nat)
    requires SpillBalanced(s, t)
    ensures SpillBalanced(SpillOne(c, s, x), t)
  {
    hide Copies, Newest, Oldest, OverLimit;
    var lines := s.lines + [Some(x)];
    EntriesConcat(s.lines, [Some(x)]);
    EntriesOne(Some(x));
    CompactionSplits(lines, c.maxEntries);
    CopiesAdd(Entries(s.lines), [x], t);
    CopiesAdd(s.past.spilled, [x], t);
    CopiesAdd(s.past.evicted, Entries(Oldest(lines, c.maxEntries)), t);
    CopiesAdd(Entries(Oldest(lines, c.maxEntries)), Entries(Newest(lines, c.maxEntries)), t);
    hide Entries;
  }

  lemma SpillBalancedDiscard(s: State, done: nat, t: nat)
    requires SpillBalanced(s, t) && done <= |Entries(s.lines)|
    ensures SpillBalanced(DiscardDone(s, done), t)
  {
    hide Copies, Entries, Discard;
    var e := Entries(s.lines);
    DiscardDropsPrefix(s.lines, done);
    var head, tail := e[..done], e[done..];
    assert Take(e, done) == head && e == head + tail;
    CopiesAdd(head, tail, t);
    CopiesAdd(s.past.confirmed, head, t);
    CopiesNone(t);
    TakeNone(tail);
    hide Take;
  }

  lemma SpillBalancedNext(c: Config, s: State, a: Action, t: nat)
    requires Enabled(s, a) && SpillBalanced(s, t) && WorkerOnHead(s)
    ensures SpillBalanced(Next(c, s, a), t)
  {
    if a.CorruptFile? {
      CorruptLineHarmless(s.lines, a.at);
    }
    hide Copies, Entries, Discard, Take;
    match a
    case Spill => SpillBalancedSpill(c, s, s.worker.ticket, t);
    case DiscardDelivered => SpillBalancedDiscard(s, s.worker.done, t);
    case _ =>
  }

  lemma TakeNone<T>(xs: seq<T>)
    ensures Take(xs, 0) == []
  {
  }

  lemma ReplayBalancedReplay(s: State, ok: bool, t: nat)
    requires s.worker.Draining? && s.worker.done < |s.worker.batch|
    requires ReplayBalanced(s, t) && WorkerOnHead(s)
    ensures ReplayBalanced(Replayed(s, s.worker.batch, s.worker.done, ok), t)
  {
    hide Entries, Copies;
    var e, d := Entries(s.lines), s.worker.done;
    assert e[d] == s.worker.batch[d];
    assert Take(e, d + 1) == Take(e, d) + [e[d]];
    CopiesAdd(Take(e, d), [e[d]], t);
    CopiesAdd(s.past.replayed, [e[d]], t);
    hide Take;
  }

  lemma ReplayBalancedNext(c: Config, s: State, a: Action, t: nat)
    requires Enabled(s, a) && ReplayBalanced(s, t) && WorkerOnHead(s)
    ensures ReplayBalanced(Next(c, s, a), t)
  {
    hide Copies, Discard, Newest, Oldest, OverLimit;
    if a.CorruptFile? {
      CorruptLineHarmless(s.lines, a.at);
    }
    TakeNone(Entries(s.lines));
    TakeNone(Entries(Next(c, s, a).lines));
    CopiesNone(t);
    CopiesAdd(s.past.confirmed, Take(Entries(s.lines), Unconfirmed(s.worker)), t);
    CopiesAdd(s.past.repeats, Take(Entries(s.lines), Unconfirmed(s.worker)), t);
    hide Entries, Take;
    match a
    case ReplayReturns(ok) => ReplayBalancedReplay(s, ok, t);
    case _ =>
  }

  lemma OnDiskOnce(s: State, t: nat)
    requires Balanced(s, t) && SpillBalanced(s, t)
    ensures Copies(Entries(s.lines), t) <= 1
  {
    hide Copies, Entries;
  }

  lemma RepeatsCountedNext(c: Config, s: State, a: Action, t: nat)
    requires Enabled(s, a) && Balanced(s, t) && SpillBalanced(s, t) && RepeatsCounted(s, t)
    ensures RepeatsCounted(Next(c, s, a), t)
  {
    hide Copies, Entries, Take, Discard, Newest, Oldest, OverLimit, Balanced, SpillBalanced;
    if a.CrashAndRestart? {
      var caught := Take(Entries(s.lines), Unconfirmed(s.worker));
      OnDiskOnce(s, t);
      CopiesOfTake(Entries(s.lines), Unconfirmed(s.worker), t);
      CopiesAdd(s.past.repeats, caught, t);
    }
  }

  lemma WorkerOnHeadNext(c: Config, s: State, a: Action)
    requires Enabled(s, a) && WorkerOnHead(s)
    ensures WorkerOnHead(Next(c, s, a))
  {
    match a
    case CorruptFile(at) =>
      CorruptLineHarmless(s.lines, at);
      hide Entries;
    case _ =>
      hide Entries;
  }

  lemma CountedNext(c: Config, s: State, a: Action)
    requires c.maxEntries >= 1
    requires Enabled(s, a) && Counted(c, s) && WorkerOnHead(s)
    ensures Counted(c, Next(c, s, a))
  {
    hide Entries;
  }

  // ----- Order

  ghost predicate Increasing(xs: seq<nat>) {
    forall i, j :: 0 <= i < j < |xs| ==> xs[i] < xs[j]
  }

  ghost predicate AllBelow(xs: seq<nat>, bound: nat) {
    forall i :: 0 <= i < |xs| ==> xs[i] < bound
  }

  /** Undelivered payloads in the order they will be tried: on disk, in flight, queued. */
  function Waiting(s: State): seq<nat> {
    Entries(s.lines) + (InFlight(s.worker) + s.queue)
  }

  /** What is in memory was submitted after everything on disk. */
  ghost predicate WaitingInOrder(s: State) {
    Increasing(Waiting(s)) && AllBelow(Waiting(s), s.past.submitted)
  }

  /** Live deliveries happen in submission order. */
  ghost predicate LiveInOrder(s: State) {
    var all := s.past.live + (InFlight(s.worker) + s.queue);
    Increasing(all) && AllBelow(all, s.past.submitted)
  }

  lemma IncreasingWithout(a: seq<nat>, b: seq<nat>, c: seq<nat>, bound: nat)
    requires Increasing(a + (b + c)) && AllBelow(a + (b + c), bound)
    ensures Increasing(a + c) && AllBelow(a + c, bound)
  {
    var all, less := a + (b + c), a + c;
    forall i | 0 <= i < |less| ensures less[i] == all[if i < |a| then i else i + |b|] {
    }
  }

  lemma IncreasingSnoc(a: seq<nat>, bound: nat)
    requires Increasing(a) && AllBelow(a, bound)
    ensures Increasing(a + [bound]) && AllBelow(a + [bound], bound + 1)
  {
  }

  /** The three ways the line of waiting payloads changes: a new last one, one leaves, nothing. */
  lemma LineNext(head: seq<nat>, c: Config, s: State, a: Action)
    requires Enabled(s, a) && (a.Submit? || a.TakeFromQueue? || a.PublishReturns?)
    requires Increasing(head + (InFlight(s.worker) + s.queue)) && AllBelow(head + (InFlight(s.worker) + s.queue), s.past.submitted)
    ensures var t := Next(c, s, a);
            Increasing(head + (InFlight(t.worker) + t.queue)) && AllBelow(head + (InFlight(t.worker) + t.queue), t.past.submitted)
  {
    hide Increasing;
    var t := Next(c, s, a);
    match a
    case Submit =>
      var line := head + (InFlight(s.worker) + s.queue);
      IncreasingSnoc(line, s.past.submitted);
      assert head + (InFlight(s.worker) + (s.queue + [s.past.submitted])) == line + [s.past.submitted];
    case TakeFromQueue =>
      assert InFlight(t.worker) + t.queue == s.queue;
      assert InFlight(s.worker) + s.queue == s.queue;
    case PublishReturns(ok) =>
      IncreasingWithout(head, InFlight(s.worker), s.queue, s.past.submitted);
      assert [] + s.queue == s.queue;
  }

  lemma SpilledEntries(c: Config, s: State)
    requires s.worker.Spilling?
    ensures var lines := s.lines + [Some(s.worker.ticket)];
            && Entries(s.lines) + [s.worker.ticket] == Entries(Oldest(lines, c.maxEntries)) + Entries(Newest(lines, c.maxEntries))
            && Entries(lines) == Entries(s.lines) + [s.worker.ticket]
  {
    hide Entries, Newest, Oldest;
    EntriesConcat(s.lines, [Some(s.worker.ticket)]);
    EntriesOne(Some(s.worker.ticket));
    CompactionSplits(s.lines + [Some(s.worker.ticket)], c.maxEntries);
  }

  lemma WaitingSpill(c: Config, s: State)
    requires s.worker.Spilling? && WaitingInOrder(s)
    ensures WaitingInOrder(SpillOne(c, s, s.worker.ticket))
  {
    hide Increasing, AllBelow, Newest, Oldest, OverLimit, Entries;
    SpilledEntries(c, s);
    var e, x := Entries(s.lines), s.worker.ticket;
    var lines := s.lines + [Some(x)];
    var evicted, kept := Entries(Oldest(lines, c.maxEntries)), Entries(Newest(lines, c.maxEntries));
    assert Waiting(s) == (e + [x]) + s.queue == [] + (evicted + (kept + s.queue));
    IncreasingWithout([], evicted, kept + s.queue, s.past.submitted);
    assert kept + ([] + s.queue) == [] + (kept + s.queue);
    assert (e + [x]) + ([] + s.queue) == (e + [x]) + s.queue;
  }

  lemma WaitingDiscard(s: State, done: nat)
    requires s.worker == Discarding(done) && done <= |Entries(s.lines)| && WaitingInOrder(s)
    ensures WaitingInOrder(DiscardDone(s, done))
  {
    hide Increasing, AllBelow, Take;
    var e := Entries(s.lines);
    DiscardDropsPrefix(s.lines, done);
    hide Entries, Discard;
    assert Waiting(s) == [] + (e[..done] + (e[done..] + s.queue));
    IncreasingWithout([], e[..done], e[done..] + s.queue, s.past.submitted);
    assert e[done..] + ([] + s.queue) == [] + (e[done..] + s.queue);
  }

  lemma WaitingCrash(s: State)
    requires WaitingInOrder(s)
    ensures WaitingInOrder(Crash(s))
  {
    hide Increasing, AllBelow, Take, Entries;
    var e, memory := Entries(s.lines), InFlight(s.worker) + s.queue;
    assert memory + [] == memory;
    IncreasingWithout(e, memory, [], s.past.submitted);
    assert InFlight(Idle) + [] == [];
  }

  lemma WaitingNext(c: Config, s: State, a: Action)
    requires Enabled(s, a) && WorkerOnHead(s) && WaitingInOrder(s)
    ensures WaitingInOrder(Next(c, s, a))
  {
    hide Increasing, AllBelow, Newest, Oldest, OverLimit, CutIndex;
    if a.CorruptFile? {
      CorruptLineHarmless(s.lines, a.at);
    }
    hide Entries;
    if a.Submit? || a.TakeFromQueue? || a.PublishReturns? {
      LineNext(Entries(s.lines), c, s, a);
    } else if a.Spill? {
      WaitingSpill(c, s);
    } else if a.DiscardDelivered? {
      WaitingDiscard(s, s.worker.done);
    } else if a.CrashAndRestart? {
      WaitingCrash(s);
    }
  }

  lemma LiveNext(c: Config, s: State, a: Action)
    requires Enabled(s, a) && LiveInOrder(s)
    ensures LiveInOrder(Next(c, s, a))
  {
    hide Increasing, AllBelow, Entries, Discard, Newest, Oldest, OverLimit, Take;
    var live, memory := s.past.live, InFlight(s.worker) + s.queue;
    if a == PublishReturns(true) {
      assert (live + [s.worker.ticket]) + ([] + s.queue) == live + ([s.worker.ticket] + s.queue);
    } else if a.Submit? || a.TakeFromQueue? || a.PublishReturns? {
      LineNext(live, c, s, a);
    } else if a.Spill? {
      IncreasingWithout(live, InFlight(s.worker), s.queue, s.past.submitted);
      assert [] + s.queue == s.queue;
    } else if a.CrashAndRestart? {
      assert memory + [] == memory;
      IncreasingWithout(live, memory, [], s.past.submitted);
      assert InFlight(Idle) + [] == [];
    }
  }

  /** Every replayed payload precedes everything still in memory. */
  ghost predicate ReplayedEarlier(s: State) {
    && (forall x, y :: x in s.past.replayed && y in InFlight(s.worker) + s.queue ==> x < y)
    && (forall x :: x in s.past.replayed ==> x < s.past.submitted)
  }

  /** What is on disk although it or something later was replayed, was replayed itself. */
  ghost predicate ReplayedOnward(replayed: seq<nat>, disk: seq<nat>) {
    forall x, e :: x in replayed && e in disk && e <= x ==> e in replayed
  }

  ghost predicate NothingOvertaken(s: State) {
    ReplayedOnward(s.past.replayed, Entries(s.lines))
  }

  /** A replay either follows all earlier replays in submission order or repeats one of them. */
  ghost predicate ReplaysInOrder(replayed: seq<nat>) {
    forall i, j :: 0 <= i < j < |replayed| ==> replayed[i] < replayed[j] || replayed[j] in replayed[..j]
  }

  ghost predicate BatchReplayed(s: State) {
    s.worker.Draining? ==> forall i :: 0 <= i < s.worker.done && i < |s.worker.batch| ==> s.worker.batch[i] in s.past.replayed
  }

  ghost predicate ReplayOrder(s: State) {
    ReplayedEarlier(s) && NothingOvertaken(s) && ReplaysInOrder(s.past.replayed) && BatchReplayed(s)
  }

  lemma AppendReplay(before: seq<nat>, x: nat)
    requires ReplaysInOrder(before)
    requires forall i :: 0 <= i < |before| ==> before[i] < x || x in before
    ensures ReplaysInOrder(before + [x])
  {
    var after := before + [x];
    forall i, j | 0 <= i < j < |after| ensures after[i] < after[j] || after[j] in after[..j] {
      assert after[..j] == if j < |before| then before[..j] else before;
    }
  }

  lemma MemoryFollowsDisk(s: State, e: seq<nat>, d: nat)
    requires WaitingInOrder(s) && e == Entries(s.lines) && d < |e|
    ensures e[d] < s.past.submitted
    ensures forall y :: y in InFlight(s.worker) + s.queue ==> e[d] < y
    ensures forall j :: d < j < |e| ==> e[d] < e[j]
  {
    hide Entries;
    var memory, all := InFlight(s.worker) + s.queue, Waiting(s);
    assert forall j :: 0 <= j < |e| ==> all[j] == e[j];
    forall y | y in memory ensures e[d] < y {
      var i :| 0 <= i < |memory| && memory[i] == y;
      assert all[|e| + i] == y;
    }
  }

  lemma OvertakesNothing(e: seq<nat>, batch: seq<nat>, d: nat, before: seq<nat>)
    requires d < |batch| && batch <= e
    requires forall j :: d < j < |e| ==> e[d] < e[j]
    requires forall i :: 0 <= i < d ==> batch[i] in before
    requires ReplayedOnward(before, e)
    ensures ReplayedOnward(before + [batch[d]], e)
    ensures forall i :: 0 <= i < |before| ==> before[i] < batch[d] || batch[d] in before
  {
    var x := batch[d];
    assert x == e[d] && x in e;
    forall i | 0 <= i < |before| ensures before[i] < x || x in before {
      assert before[i] in before;
    }
    forall y | y in e && y <= x ensures y in before + [x] {
      var j :| 0 <= j < |e| && e[j] == y;
      assert j <= d;
      assert e[j] == batch[j];
    }
  }

  /** Replaying the next payload of the batch. */
  lemma ReplayOrderReplay(s: State)
    requires s.worker.Draining? && s.worker.done < |s.worker.batch|
    requires WorkerOnHead(s) && WaitingInOrder(s) && ReplayOrder(s)
    ensures ReplayOrder(Replayed(s, s.worker.batch, s.worker.done, true))
  {
    var e, batch, d, before := Entries(s.lines), s.worker.batch, s.worker.done, s.past.replayed;
    MemoryFollowsDisk(s, e, d);
    hide Entries, WaitingInOrder, ReplaysInOrder, ReplayedOnward;
    assert batch[d] == e[d];
    OvertakesNothing(e, batch, d, before);
    AppendReplay(before, batch[d]);
  }

  lemma EntriesShrink(c: Config, s: State, a: Action)
    requires Enabled(s, a) && WorkerOnHead(s)
    ensures forall e :: e in Entries(Next(c, s, a).lines) ==> e in Entries(s.lines) || (a.Spill? && e == s.worker.ticket)
  {
    hide CutIndex, OverLimit, Newest, Oldest;
    if a.Spill? {
      var x := s.worker.ticket;
      var lines := s.lines + [Some(x)];
      EntriesConcat(s.lines, [Some(x)]);
      EntriesOne(Some(x));
      CompactionSplits(lines, c.maxEntries);
      hide Entries;
      var evicted, kept := Entries(Oldest(lines, c.maxEntries)), Entries(Newest(lines, c.maxEntries));
      assert forall e :: e in kept ==> e in evicted + kept;
      assert forall e :: e in Entries(s.lines) + [x] ==> e in Entries(s.lines) || e == x;
    } else if a.DiscardDelivered? {
      DiscardDropsPrefix(s.lines, s.worker.done);
    } else if a.CorruptFile? {
      CorruptLineHarmless(s.lines, a.at);
    }
  }

  lemma MemoryShrinks(c: Config, s: State, a: Action)
    requires Enabled(s, a)
    ensures var t := Next(c, s, a);
            forall y :: y in InFlight(t.worker) + t.queue ==>
              y in InFlight(s.worker) + s.queue || (a.Submit? && y == s.past.submitted)
  {
    hide Entries, Discard, Newest, Oldest, OverLimit, Take;
  }

  lemma ReplayOrderNext(c: Config, s: State, a: Action)
    requires Enabled(s, a) && WorkerOnHead(s) && WaitingInOrder(s) && ReplayOrder(s)
    ensures ReplayOrder(Next(c, s, a))
  {
    hide Entries, WaitingInOrder, ReplaysInOrder;
    if a == ReplayReturns(true) {
      ReplayOrderReplay(s);
    } else {
      ReplayOrderOther(c, s, a);
    }
  }

  lemma SameReplays(c: Config, s: State, a: Action)
    requires Enabled(s, a) && a != ReplayReturns(true)
    ensures var t := Next(c, s, a);
            && t.past.replayed == s.past.replayed && s.past.submitted <= t.past.submitted
            && (a.Submit? ==> t.past.submitted == s.past.submitted + 1)
            && (t.worker.Draining? ==> t.worker == s.worker || t.worker.done == 0)
  {
    hide Entries, Discard, Newest, Oldest, OverLimit, Take;
  }

  lemma ReplayOrderOther(c: Config, s: State, a: Action)
    requires Enabled(s, a) && a != ReplayReturns(true) && WorkerOnHead(s) && ReplayOrder(s)
    ensures ReplayOrder(Next(c, s, a))
  {
    hide Next, Entries, ReplaysInOrder, WorkerOnHead;
    EntriesShrink(c, s, a);
    MemoryShrinks(c, s, a);
    SameReplays(c, s, a);
    var t := Next(c, s, a);
    if a.Spill? {
      assert s.worker.ticket in InFlight(s.worker) + s.queue;
    }
    assert NothingOvertaken(t);
  }

  // ----- All of it, in every reachable state

  ghost predicate Invariant(c: Config, s: State) {
    && WorkerOnHead(s) && Counted(c, s)
    && WaitingInOrder(s) && LiveInOrder(s) && ReplayOrder(s)
    && forall t :: Balanced(s, t) && SpillBalanced(s, t) && ReplayBalanced(s, t) && RepeatsCounted(s, t)
  }

  lemma InvariantNext(c: Config, s: State, a: Action)
    requires c.maxEntries >= 1 && Enabled(s, a) && Invariant(c, s)
    ensures Invariant(c, Next(c, s, a))
  {
    WorkerOnHeadNext(c, s, a);
    CountedNext(c, s, a);
    WaitingNext(c, s, a);
    LiveNext(c, s, a);
    ReplayOrderNext(c, s, a);
    hide Next, WorkerOnHead, Counted, WaitingInOrder, LiveInOrder, ReplayOrder, Balanced, SpillBalanced, ReplayBalanced, RepeatsCounted;
    forall t: nat
      ensures var next := Next(c, s, a);
              Balanced(next, t) && SpillBalanced(next, t) && ReplayBalanced(next, t) && RepeatsCounted(next, t)
    {
      assert Balanced(s, t);
      BalancedNext(c, s, a, t);
      SpillBalancedNext(c, s, a, t);
      ReplayBalancedNext(c, s, a, t);
      RepeatsCountedNext(c, s, a, t);
    }
  }

  lemma {:induction false} RunInvariant(c: Config, actions: seq<Action>)
    requires c.maxEntries >= 1
    ensures Invariant(c, Run(c, actions))
  {
    if actions != [] {
      hide Invariant, Next, Enabled;
      var init, a := actions[..|actions| - 1], actions[|actions| - 1];
      RunInvariant(c, init);
      var s := Run(c, init);
      if Enabled(s, a) {
        InvariantNext(c, s, a);
      }
    } else {
      StartInvariant(c);
    }
  }

  lemma StartInvariant(c: Config)
    requires c.maxEntries >= 1
    ensures Invariant(c, START)
  {
    assert Entries<nat>([]) == [];
  }

  lemma CopiesOfTake(xs: seq<nat>, n: int, t: nat)
    ensures Copies(Take(xs, n), t) <= Copies(xs, t)
  {
    if 0 < n < |xs| {
      assert xs == xs[..n] + xs[n..];
      CopiesAdd(xs[..n], xs[n..], t);
    }
  }

  lemma CopiesPositive(xs: seq<nat>, t: nat)
    ensures Copies(xs, t) > 0 <==> t in xs
  {
  }

  /** In every interleaving, with crashes and corrupt lines, each submitted payload is in exactly one place:
      refused, queued, in flight, delivered live, discarded for want of a spill file, lost from memory in a
      crash, evicted by compaction, on disk, or delivered by replay; and nothing else is anywhere. */
  lemma ExactlyOnePlace(c: Config, actions: seq<Action>, t: nat)
    requires c.maxEntries >= 1
    ensures var s := Run(c, actions);
            Elsewhere(s, t) + InSpill(s, t) == if t < s.past.submitted then 1 else 0
  {
    RunInvariant(c, actions);
    var s := Run(c, actions);
    assert Balanced(s, t) && SpillBalanced(s, t);
  }

  /** The drop counter, carried over restarts, is the number of refused submissions; the queue keeps its bound. */
  lemma DropsAreCounted(c: Config, actions: seq<Action>)
    requires c.maxEntries >= 1
    ensures var s := Run(c, actions);
            s.past.droppedBefore + s.droppedTotal == |s.past.dropped| && |s.queue| <= c.capacity
  {
    RunInvariant(c, actions);
  }

  /** A crash costs no spilled payload: each is on disk, was evicted as one of the oldest lines, or was
      delivered by replay. */
  lemma SpilledSurvivesCrashes(c: Config, actions: seq<Action>, t: nat)
    requires c.maxEntries >= 1
    ensures var s := Run(c, actions);
            t in s.past.spilled ==> t in Entries(s.lines) || t in s.past.evicted || (t in s.past.confirmed && t in s.past.replayed)
  {
    RunInvariant(c, actions);
    var s := Run(c, actions);
    assert SpillBalanced(s, t) && ReplayBalanced(s, t);
    CopiesPositive(s.past.spilled, t);
    CopiesPositive(s.past.evicted, t);
    CopiesPositive(Entries(s.lines), t);
    CopiesPositive(s.past.confirmed, t);
    CopiesPositive(s.past.replayed, t);
  }

  /** A payload is replayed once, plus at most once for each crash that caught it delivered but not yet
      discarded; it is caught at most once by each crash. */
  lemma RepeatsBounded(c: Config, actions: seq<Action>, t: nat)
    requires c.maxEntries >= 1
    ensures var s := Run(c, actions);
            && Copies(s.past.replayed, t) <= 1 + Copies(s.past.repeats, t)
            && Copies(s.past.repeats, t) <= s.past.crashes
            && |s.past.repeats| <= SPILL_DRAIN_BATCH_SIZE * s.past.crashes
  {
    RunInvariant(c, actions);
    var s := Run(c, actions);
    assert Balanced(s, t) && SpillBalanced(s, t) && ReplayBalanced(s, t) && RepeatsCounted(s, t);
    CopiesOfTake(Entries(s.lines), Unconfirmed(s.worker), t);
  }

  /** One crash, in any reachable state, causes repeats of at most one batch: some leading payloads of the
      file, each of them once. */
  lemma CrashRepeatsOneBatch(c: Config, actions: seq<Action>)
    requires c.maxEntries >= 1
    ensures var s := Run(c, actions);
            var caught := Take(Entries(s.lines), Unconfirmed(s.worker));
            && Next(c, s, CrashAndRestart).past.repeats == s.past.repeats + caught
            && |caught| <= SPILL_DRAIN_BATCH_SIZE && caught <= Entries(s.lines)
            && (forall t :: Copies(caught, t) <= 1)
  {
    hide Run, Copies, Entries, Take, Invariant;
    RunInvariant(c, actions);
    CrashCatchesBatch(c, Run(c, actions));
  }

  lemma CrashCatchesBatch(c: Config, s: State)
    requires Invariant(c, s)
    ensures var caught := Take(Entries(s.lines), Unconfirmed(s.worker));
            |caught| <= SPILL_DRAIN_BATCH_SIZE && caught <= Entries(s.lines) && (forall t :: Copies(caught, t) <= 1)
  {
    hide Entries, Copies, Balanced, SpillBalanced, ReplayBalanced, RepeatsCounted, Counted, WaitingInOrder, LiveInOrder, ReplayOrder;
    forall t ensures Copies(Take(Entries(s.lines), Unconfirmed(s.worker)), t) <= 1 {
      assert Balanced(s, t);
      OnDiskOnce(s, t);
      CopiesOfTake(Entries(s.lines), Unconfirmed(s.worker), t);
    }
  }

  /** The sequence without the elements that occurred before. */
  function FirstOccurrences(xs: seq<nat>): seq<nat> {
    if xs == [] then []
    else
      FirstOccurrences(xs[..|xs| - 1]) + if xs[|xs| - 1] in xs[..|xs| - 1] then [] else [xs[|xs| - 1]]
  }

  lemma NewReplayIsLatest(init: seq<nat>, x: nat)
    requires ReplaysInOrder(init + [x]) && x !in init
    ensures ReplaysInOrder(init) && forall y :: y in init ==> y < x
  {
    var xs := init + [x];
    forall i, j | 0 <= i < j < |init| ensures init[i] < init[j] || init[j] in init[..j] {
      assert xs[..j] == init[..j];
    }
    forall y | y in init ensures y < x {
      var i :| 0 <= i < |init| && init[i] == y;
      assert xs[..|init|] == init && xs[|init|] == x && xs[i] == y;
    }
  }

  lemma PrefixInOrder(xs: seq<nat>, n: nat)
    requires ReplaysInOrder(xs) && n <= |xs|
    ensures ReplaysInOrder(xs[..n])
  {
    forall i, j | 0 <= i < j < n ensures xs[..n][i] < xs[..n][j] || xs[..n][j] in xs[..n][..j] {
      assert xs[..n][..j] == xs[..j];
    }
  }

  lemma {:induction false} FirstOccurrencesIncrease(xs: seq<nat>)
    requires ReplaysInOrder(xs)
    ensures Increasing(FirstOccurrences(xs))
    ensures forall x :: x in FirstOccurrences(xs) <==> x in xs
  {
    hide ReplaysInOrder, Increasing;
    if xs != [] {
      var init, x := xs[..|xs| - 1], xs[|xs| - 1];
      assert xs == init + [x];
      PrefixInOrder(xs, |xs| - 1);
      FirstOccurrencesIncrease(init);
      if x in init {
        assert FirstOccurrences(xs) == FirstOccurrences(init);
      } else {
        NewReplayIsLatest(init, x);
        assert FirstOccurrences(xs) == FirstOccurrences(init) + [x];
        LatestIncreases(FirstOccurrences(init), x);
      }
    } else {
      assert Increasing([]) by { NothingIncreases(); }
    }
  }

  lemma NothingIncreases()
    ensures Increasing([])
  {
  }

  lemma LatestIncreases(xs: seq<nat>, x: nat)
    requires Increasing(xs) && forall y :: y in xs ==> y < x
    ensures Increasing(xs + [x])
  {
    assert forall i :: 0 <= i < |xs| ==> xs[i] in xs;
  }

  /** Apart from repeats, replayed payloads are delivered in submission order, and so are live ones. */
  lemma DeliveriesInSubmissionOrder(c: Config, actions: seq<Action>)
    requires c.maxEntries >= 1
    ensures var s := Run(c, actions);
            Increasing(FirstOccurrences(s.past.replayed)) && Increasing(s.past.live)
  {
    RunInvariant(c, actions);
    var s := Run(c, actions);
    FirstOccurrencesIncrease(s.past.replayed);
    var memory := InFlight(s.worker) + s.queue;
    assert memory + [] == memory && s.past.live + [] == s.past.live;
    IncreasingWithout(s.past.live, memory, [], s.past.submitted);
  }

  /** While nobody else writes the file, the counter is the number of stored lines and stays within 10% of
      the limit, and what is on disk is in submission order. */
  lemma SpillFileBounded(c: Config, actions: seq<Action>)
    requires c.maxEntries >= 1
    ensures var s := Run(c, actions);
            && (s.past.corruptions == 0 ==> s.count == |s.lines| && 10 * |s.lines| <= 11 * c.maxEntries)
            && Increasing(Entries(s.lines))
  {
    RunInvariant(c, actions);
    var s := Run(c, actions);
    var memory := InFlight(s.worker) + s.queue;
    assert memory + [] == memory && Entries(s.lines) + [] == Entries(s.lines);
    IncreasingWithout(Entries(s.lines), memory, [], s.past.submitted);
  }

  // ----- What each outcome means

  /** A submission is refused exactly when the queue is full. */
  lemma RefusedIffFull(c: Config, s: State)
    ensures var t, ticket := Next(c, s, Submit), s.past.submitted;
            && t.past.dropped == (if |s.queue| >= c.capacity then s.past.dropped + [ticket] else s.past.dropped)
            && t.queue == (if |s.queue| >= c.capacity then s.queue else s.queue + [ticket])
            && t.worker == s.worker && t.lines == s.lines
  {
  }

  /** With a spill store no payload is discarded for a failed publish. */
  lemma {:induction false} NothingDiscardedWithStore(c: Config, actions: seq<Action>)
    requires c.hasSpill
    ensures Run(c, actions).past.failed == []
  {
    if actions != [] {
      hide Entries, Discard, Newest, Oldest, OverLimit, Take;
      NothingDiscardedWithStore(c, actions[..|actions| - 1]);
    }
  }

  /** Payloads are evicted only by a spill that takes the counter more than a tenth over the limit, and then the
      newest lines stay, as many as the limit. */
  lemma EvictsOnlyOverLimit(c: Config, s: State, a: Action)
    requires Enabled(s, a)
    ensures Next(c, s, a).past.evicted != s.past.evicted ==> a.Spill? && 10 * (s.count + 1) > 11 * c.maxEntries
    ensures a.Spill? && 10 * (s.count + 1) > 11 * c.maxEntries && |s.lines| >= c.maxEntries >= 1 ==>
              Next(c, s, a).lines == s.lines[|s.lines| + 1 - c.maxEntries..] + [Some(s.worker.ticket)]
  {
    hide Entries, Discard, Take;
  }

  // ----- Why one worker

  /** Two workers that drain at the same time peek the same batch and discard one after the other. With
      `d1` and `d2` payloads delivered by each, nothing undelivered is discarded exactly when one of them
      delivered nothing or the longer prefix was everything. */
  lemma ConcurrentDrainsSafeIff(lines: seq<Option<nat>>, d1: nat, d2: nat)
    requires d1 <= |Entries(lines)| && d2 <= |Entries(lines)|
    ensures var e, longer := Entries(lines), if d1 < d2 then d2 else d1;
            Entries(Discard(Discard(lines, d1), d2)) == e[longer..] <==> d1 == 0 || d2 == 0 || longer == |e|
  {
    var e := Entries(lines);
    DiscardDropsPrefix(lines, d1);
    DiscardDropsPrefix(Discard(lines, d1), d2);
    hide Entries, Discard;
    if d1 + d2 <= |e| {
      assert e[d1..][d2..] == e[d1 + d2..];
    }
  }
}
