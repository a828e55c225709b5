/** The publisher as it runs: a bounded queue, a drop counter and an optional spill store, updated in place.
    The outcomes of publish calls are parameters; an exception counts as a failed publish. */
module BackgroundPublisher {
  import opened Options
  import opened Text
  import opened SpillLines
  import opened DiskSpillStore
  import P = PublisherProtocol

  /** How many of the first `n` replies succeed before the first failure. */
  function LeadingSuccesses(replies: nat -> bool, n: nat): (d: nat)
    ensures d <= n && forall i :: 0 <= i < d ==> replies(i)
    ensures d < n ==> !replies(d)
  {
    if n == 0 then 0
    else
      var d := LeadingSuccesses(replies, n - 1);
      if d == n - 1 && replies(n - 1) then n else d
  }

  // ----- One turn of the worker, on values

  /** What a publisher holds between turns; without a spill store there are no lines. */
  datatype Snapshot<T> = Snapshot(queue: seq<T>, dropped: nat, lines: seq<Option<T>>, count: nat)

  /** The payloads that a live success tries to replay. */
  function Backlog<T>(s: Snapshot<T>): seq<T> {
    if s.count == 0 then [] else Take(Entries(s.lines), P.SPILL_DRAIN_BATCH_SIZE)
  }

  function Replayable<T>(s: Snapshot<T>, replies: nat -> bool): nat {
    LeadingSuccesses(replies, |Backlog(s)|)
  }

  function Spilled<T>(s: Snapshot<T>, maxEntries: nat, appended: seq<Option<T>>): Snapshot<T> {
    if OverLimit(s.count + 1, maxEntries)
    then s.(lines := Newest(appended, maxEntries), count := |Newest(appended, maxEntries)|)
    else s.(lines := appended, count := s.count + 1)
  }

  function Discarded<T>(s: Snapshot<T>, d: nat): Snapshot<T> {
    if d == 0 then s else s.(lines := Discard(s.lines, d), count := |Discard(s.lines, d)|)
  }

  /** The turn that publishes the oldest payload; `appended` are the lines should it have to be spilled. */
  function TurnOf<T>(hasSpill: bool, maxEntries: nat, s: Snapshot<T>, appended: seq<Option<T>>, ok: bool, replies: nat -> bool): Snapshot<T>
    requires s.queue != []
  {
    var taken := s.(queue := s.queue[1..]);
    if !hasSpill then taken
    else if !ok then Spilled(taken, maxEntries, appended)
    else Discarded(taken, Replayable(taken, replies))
  }

  /** The successful publishes of that turn, in order. */
  function Delivered<T>(hasSpill: bool, s: Snapshot<T>, ok: bool, replies: nat -> bool): seq<T>
    requires s.queue != []
  {
    if !ok then []
    else [s.queue[0]] + if hasSpill then Backlog(s)[..Replayable(s, replies)] else []
  }

  /** The lines of a file that ends clean, with the oldest queued payload appended. */
  function CleanAppend<T>(s: Snapshot<T>): seq<Option<T>>
    requires s.queue != []
  {
    s.lines + [Some(s.queue[0])]
  }

  /** Whether that turn writes the spill file. */
  predicate Writes<T>(hasSpill: bool, s: Snapshot<T>, ok: bool, replies: nat -> bool) {
    hasSpill && (!ok || Replayable(s, replies) > 0)
  }

  /** Turn after turn until the queue is empty, at most `n` of them. While the file still ends in the torn write
      it began with, `tornAppend` says which lines an append leaves; the first write mends it. The results are
      what the publisher holds, whether the file is still torn, and the payloads delivered in order. */
  function Turns<T>(hasSpill: bool, maxEntries: nat, s: Snapshot<T>, torn: bool, tornAppend: T -> seq<Option<T>>,
                    oks: nat -> bool, replies: nat -> nat -> bool, n: nat): (Snapshot<T>, bool, seq<T>) {
    if n == 0 then (s, torn, [])
    else
      var (t, tornYet, sent) := Turns(hasSpill, maxEntries, s, torn, tornAppend, oks, replies, n - 1);
      if t.queue == [] then (t, tornYet, sent)
      else
        var appended := if tornYet then tornAppend(t.queue[0]) else CleanAppend(t);
        (TurnOf(hasSpill, maxEntries, t, appended, oks(n - 1), replies(n - 1)),
         tornYet && !Writes(hasSpill, t, oks(n - 1), replies(n - 1)),
         sent + Delivered(hasSpill, t, oks(n - 1), replies(n - 1)))
  }

  // ----- The object

  class BackgroundPublisher<T(!new)> {
    const capacity: nat
    const spillStore: DiskSpillStore?<T>
    var queue: seq<T>
    var dropped: nat

    ghost predicate Valid()
      reads this, spillStore
    {
      && capacity >= 1
      && |queue| <= capacity
      && (spillStore != null ==> spillStore.Valid())
    }

    /** The spill file does not end in a torn write. */
    ghost predicate Clean()
      reads this, spillStore
    {
      spillStore != null ==> EndsClean(spillStore.text)
    }

    ghost function MaxEntries(): nat
    {
      if spillStore == null then 0 else spillStore.maxEntries
    }

    ghost function View(): Snapshot<T>
      reads this, spillStore
    {
      if spillStore == null then Snapshot(queue, dropped, [], 0)
      else Snapshot(queue, dropped, spillStore.FileLines(), spillStore.count)
    }

    /** The lines of the spill file, torn or not, with the oldest queued payload appended. */
    ghost function Appended(): seq<Option<T>>
      requires queue != []
      reads this, spillStore
    {
      TornAppend()(queue[0])
    }

    /** What an append to the present spill file leaves. */
    ghost function TornAppend(): T -> seq<Option<T>>
      reads this, spillStore
    {
      if spillStore == null then (x: T) => []
      else var codec, text := spillStore.codec, spillStore.text; (x: T) => AppendedTo(codec, text, x)
    }

    constructor (maxQueueSize: int, spillStore: DiskSpillStore?<T>)
      requires spillStore != null ==> spillStore.Valid()
      ensures Valid() && queue == [] && dropped == 0 && this.spillStore == spillStore
      ensures capacity == if maxQueueSize > 1 then maxQueueSize else 1
    {
      capacity := if maxQueueSize > 1 then maxQueueSize else 1;
      this.spillStore := spillStore;
      queue, dropped := [], 0;
    }

    method Submit(payload: T) returns (accepted: bool)
      requires Valid()
      modifies this
      ensures Valid() && (old(Clean()) ==> Clean())
      ensures accepted <==> |old(queue)| < capacity
      ensures View() == if accepted then old(View()).(queue := old(queue) + [payload])
                        else old(View()).(dropped := old(dropped) + 1)
    {
      accepted := |queue| < capacity;
      if accepted {
        queue := queue + [payload];
      } else {
        dropped := dropped + 1;
      }
    }

    /** One turn of the worker loop: publish the oldest queued payload; on failure spill or discard it, on
        success replay the head of the spill file. `delivered` lists the successful publishes in order. */
    method RunOnce(ok: bool, replies: nat -> bool) returns (delivered: seq<T>)
      requires Valid() && queue != []
      modifies this`queue, spillStore
      ensures Valid()
      ensures Clean() <==> old(Clean()) || Writes(spillStore != null, old(View()), ok, replies)
      ensures !Clean() ==> TornAppend() == old(TornAppend())
      ensures View() == TurnOf(spillStore != null, MaxEntries(), old(View()), old(Appended()), ok, replies)
      ensures delivered == Delivered(spillStore != null, old(View()), ok, replies)
      ensures old(Clean()) && spillStore != null && !ok ==> old(Appended()) == CleanAppend(old(View()))
    {
      hide Entries, Discard, Newest, GoodCodec, Decode, Lines, EndsClean, Whole, LastPiece, Take, AppendedTo;
      var payload := queue[0];
      queue := queue[1..];
      delivered := [];
      if !ok {
        if spillStore != null {
          spillStore.Append(payload);
        }
      } else {
        delivered := [payload];
        if spillStore != null {
          var empty := spillStore.IsEmpty();
          if !empty {
            var replayed := DrainSpillBacklog(replies);
            delivered := delivered + replayed;
          }
        }
      }
    }

    /** Replays the oldest spilled payloads up to the first failure and discards exactly the delivered ones. */
    method DrainSpillBacklog(replies: nat -> bool) returns (replayed: seq<T>)
      requires spillStore != null && spillStore.Valid() && spillStore.count > 0
      modifies spillStore
      ensures spillStore.Valid()
      ensures EndsClean(spillStore.text) <==> EndsClean(old(spillStore.text)) || |replayed| > 0
      ensures |replayed| == 0 ==> spillStore.text == old(spillStore.text)
      ensures replayed == Backlog(old(View()))[..Replayable(old(View()), replies)]
      ensures View() == Discarded(old(View()), |replayed|)
    {
      hide Entries, GoodCodec, Decode, Lines, EndsClean, Take;
      ghost var before := View();
      var batch := spillStore.PeekBatch(P.SPILL_DRAIN_BATCH_SIZE);
      assert batch == Backlog(before);
      replayed := [];
      var deliveredCount := 0;
      while deliveredCount < |batch| && replies(deliveredCount)
        invariant 0 <= deliveredCount <= |batch|
        invariant replayed == batch[..deliveredCount]
        invariant LeadingSuccesses(replies, deliveredCount) == deliveredCount
      {
        replayed := replayed + [batch[deliveredCount]];
        deliveredCount := deliveredCount + 1;
      }
      FirstFailure(replies, deliveredCount, |batch|);
      if deliveredCount > 0 {
        spillStore.DiscardBatch(deliveredCount);
      }
    }

    /** The worker loop, for at most `n` turns: it stops when the queue is empty. */
    method RunTurns(oks: nat -> bool, replies: nat -> nat -> bool, n: nat) returns (delivered: seq<T>)
      requires Valid()
      modifies this`queue, spillStore
      ensures Valid()
      ensures (View(), !Clean(), delivered)
           == Turns(spillStore != null, MaxEntries(), old(View()), !old(Clean()), old(TornAppend()), oks, replies, n)
    {
      hide TurnOf, Delivered, Writes;
      delivered := [];
      for i := 0 to n
        invariant Valid()
        invariant (View(), !Clean(), delivered)
               == Turns(spillStore != null, MaxEntries(), old(View()), !old(Clean()), old(TornAppend()), oks, replies, i)
        invariant !Clean() ==> TornAppend() == old(TornAppend())
      {
        if queue != [] {
          ghost var before, appended, clean := View(), Appended(), Clean();
          var sent := RunOnce(oks(i), replies(i));
          if clean {
            SameTurn(spillStore != null, MaxEntries(), before, appended, oks(i), replies(i));
          }
          delivered := delivered + sent;
        }
      }
    }
  }

  /** Where the turn does not append, the appended lines do not matter. */
  lemma SameTurn<T>(hasSpill: bool, maxEntries: nat, s: Snapshot<T>, appended: seq<Option<T>>, ok: bool, replies: nat -> bool)
    requires s.queue != [] && (hasSpill && !ok ==> appended == CleanAppend(s))
    ensures TurnOf(hasSpill, maxEntries, s, appended, ok, replies) == TurnOf(hasSpill, maxEntries, s, CleanAppend(s), ok, replies)
  {
    hide Discarded, Spilled, Replayable;
  }

  lemma {:induction false} FirstFailure(replies: nat -> bool, d: nat, n: nat)
    requires d <= n && LeadingSuccesses(replies, d) == d && (d == n || !replies(d))
    ensures LeadingSuccesses(replies, n) == d
  {
    if d < n {
      FirstFailure(replies, d, n - 1);
    }
  }

  lemma DiscardNoMore<T>(lines: seq<Option<T>>, d: nat)
    ensures |Discard(lines, d)| <= |lines|
  {
  }

  /** Over a file that ends clean, an honest counter stays honest and within its bound. */
  lemma TurnKeepsCount<T>(maxEntries: nat, s: Snapshot<T>, ok: bool, replies: nat -> bool)
    requires s.queue != [] && maxEntries >= 1
    requires s.count == |s.lines| && !OverLimit(s.count, maxEntries)
    ensures var t := TurnOf(true, maxEntries, s, CleanAppend(s), ok, replies);
            t.count == |t.lines| && !OverLimit(t.count, maxEntries)
  {
    hide Discard, Replayable;
    DiscardNoMore(s.lines, Replayable(s.(queue := s.queue[1..]), replies));
  }

  lemma {:induction false} TurnsKeepCount<T>(maxEntries: nat, s: Snapshot<T>, tornAppend: T -> seq<Option<T>>, oks: nat -> bool, replies: nat -> nat -> bool, n: nat)
    requires maxEntries >= 1 && s.count == |s.lines| && !OverLimit(s.count, maxEntries)
    ensures var t := Turns(true, maxEntries, s, false, tornAppend, oks, replies, n).0;
            t.count == |t.lines| && !OverLimit(t.count, maxEntries)
    ensures !Turns(true, maxEntries, s, false, tornAppend, oks, replies, n).1
  {
    if n > 0 {
      hide TurnOf, Delivered, OverLimit;
      TurnsKeepCount(maxEntries, s, tornAppend, oks, replies, n - 1);
      var t := Turns(true, maxEntries, s, false, tornAppend, oks, replies, n - 1).0;
      if t.queue != [] {
        TurnKeepsCount(maxEntries, t, oks(n - 1), replies(n - 1));
      }
    }
  }

  /** A live success replays the oldest payloads on disk, at most fifty, up to the first refusal, and takes
      exactly those off the file. */
  lemma DrainsUpToRefusal<T>(maxEntries: nat, s: Snapshot<T>, appended: seq<Option<T>>, replies: nat -> bool)
    requires s.queue != [] && s.count > 0
    ensures var e := Entries(s.lines);
            var d := |Delivered(true, s, true, replies)| - 1;
            && 0 <= d <= |e| && d <= 50
            && Delivered(true, s, true, replies) == [s.queue[0]] + e[..d]
            && Entries(TurnOf(true, maxEntries, s, appended, true, replies).lines) == e[d..]
            && (forall i :: 0 <= i < d ==> replies(i))
            && (d < |e| && d < 50 ==> !replies(d))
  {
    hide Entries, Discard, LeadingSuccesses;
    var e, d := Entries(s.lines), Replayable(s, replies);
    DiscardDropsPrefix(s.lines, d);
    assert Backlog(s)[..d] == e[..d];
    assert d == 0 ==> e[d..] == e;
  }

  /** A failed publish with a store spills and delivers nothing; without one it discards. */
  lemma FailureSpills<T>(hasSpill: bool, maxEntries: nat, s: Snapshot<T>, replies: nat -> bool)
    requires s.queue != []
    ensures var t := TurnOf(hasSpill, maxEntries, s, CleanAppend(s), false, replies);
            && t.queue == s.queue[1..] && t.dropped == s.dropped && Delivered(hasSpill, s, false, replies) == []
            && (hasSpill && 10 * (s.count + 1) <= 11 * maxEntries ==> t.lines == s.lines + [Some(s.queue[0])])
            && (hasSpill && 10 * (s.count + 1) > 11 * maxEntries && |s.lines| >= maxEntries >= 1 ==>
                  t.lines == s.lines[|s.lines| + 1 - maxEntries..] + [Some(s.queue[0])])
            && (!hasSpill ==> t.lines == s.lines)
  {
  }

  // ----- The protocol's worker actions, run without interruption, make up the turns of the loop

  function SnapshotOf(s: P.State): Snapshot<nat> {
    Snapshot(s.queue, s.droppedTotal, s.lines, s.count)
  }

  function Replay(c: P.Config, s: P.State, n: nat): P.State
    requires s.worker.Draining? && s.worker.done == 0 && n <= |s.worker.batch|
    ensures Replay(c, s, n).worker == P.Draining(s.worker.batch, n)
  {
    if n == 0 then s else P.Next(c, Replay(c, s, n - 1), P.ReplayReturns(true))
  }

  /** The worker's own actions from taking a payload to being idle again. */
  function Turn(c: P.Config, s: P.State, ok: bool, replies: nat -> bool): P.State
    requires s.worker.Idle? && s.queue != []
  {
    var published := P.Next(c, P.Next(c, s, P.TakeFromQueue), P.PublishReturns(ok));
    if !c.hasSpill then published
    else if !ok then P.Next(c, published, P.Spill)
    else
      var checked := P.Next(c, published, P.CheckEmpty);
      if checked.worker.Idle? then checked
      else
        var draining := P.Next(c, checked, P.Peek);
        var d := LeadingSuccesses(replies, |draining.worker.batch|);
        var replayed := Replay(c, draining, d);
        var stopped := if d < |draining.worker.batch|
          then P.Next(c, replayed, P.ReplayReturns(false)) else P.Next(c, replayed, P.EndOfBatch);
        P.Next(c, stopped, P.DiscardDelivered)
  }

  lemma {:induction false} ReplayIs(c: P.Config, s: P.State, n: nat)
    requires s.worker.Draining? && s.worker.done == 0 && n <= |s.worker.batch|
    ensures Replay(c, s, n) == s.(worker := P.Draining(s.worker.batch, n),
                                  past := s.past.(replayed := s.past.replayed + s.worker.batch[..n]))
  {
    if n > 0 {
      ReplayIs(c, s, n - 1);
      assert s.worker.batch[..n] == s.worker.batch[..n - 1] + [s.worker.batch[n - 1]];
      assert s.past.replayed + s.worker.batch[..n - 1] + [s.worker.batch[n - 1]] == s.past.replayed + s.worker.batch[..n];
    } else {
      assert s.past.replayed + s.worker.batch[..0] == s.past.replayed;
    }
  }

  /** The state after the turn is what `RunOnce` leaves, and what the history gains is what it delivers. */
  ghost predicate TurnEffect(c: P.Config, s: P.State, t: P.State, ok: bool, replies: nat -> bool)
    requires s.queue != []
  {
    var before := SnapshotOf(s);
    && t.worker.Idle?
    && SnapshotOf(t) == TurnOf(c.hasSpill, c.maxEntries, before, CleanAppend(before), ok, replies)
    && t.past.live == s.past.live + (if ok then [s.queue[0]] else [])
    && t.past.failed == s.past.failed + (if ok || c.hasSpill then [] else [s.queue[0]])
    && t.past.spilled == s.past.spilled + (if !ok && c.hasSpill then [s.queue[0]] else [])
    && t.past.replayed == s.past.replayed + (if ok && c.hasSpill then Backlog(before)[..Replayable(before, replies)] else [])
  }

  lemma TurnReplays(c: P.Config, s: P.State, replies: nat -> bool)
    requires s.worker.Idle? && s.queue != [] && c.hasSpill
    ensures TurnEffect(c, s, Turn(c, s, true, replies), true, replies)
  {
    hide Entries, Take, OverLimit, Discard, Replay, LeadingSuccesses;
    var checked := P.Next(c, P.Next(c, P.Next(c, s, P.TakeFromQueue), P.PublishReturns(true)), P.CheckEmpty);
    assert s.past.failed + [] == s.past.failed && s.past.spilled + [] == s.past.spilled;
    if checked.worker.Peeking? {
      var draining := P.Next(c, checked, P.Peek);
      ReplayIs(c, draining, LeadingSuccesses(replies, |draining.worker.batch|));
    } else {
      assert s.past.replayed + [] == s.past.replayed;
      NoSuccess(replies);
    }
  }

  lemma NoSuccess(replies: nat -> bool)
    ensures LeadingSuccesses(replies, 0) == 0
  {
  }

  /** The uninterrupted turn has the effect that `RunOnce` promises. */
  lemma TurnIsRunOnce(c: P.Config, s: P.State, ok: bool, replies: nat -> bool)
    requires s.worker.Idle? && s.queue != []
    ensures TurnEffect(c, s, Turn(c, s, ok, replies), ok, replies)
  {
    if c.hasSpill && ok {
      TurnReplays(c, s, replies);
    } else {
      hide Entries, Newest, Oldest, OverLimit, Take, Replay;
    }
  }

  function MachineTurns(c: P.Config, s: P.State, oks: nat -> bool, replies: nat -> nat -> bool, n: nat): (t: P.State)
    requires s.worker.Idle?
    ensures t.worker.Idle?
  {
    if n == 0 then s
    else
      var t := MachineTurns(c, s, oks, replies, n - 1);
      if t.queue == [] then t
      else
        TurnIsRunOnce(c, t, oks(n - 1), replies(n - 1));
        Turn(c, t, oks(n - 1), replies(n - 1))
  }

  /** Any number of uninterrupted turns of the protocol leaves what `RunTurns` leaves. */
  lemma {:induction false} TurnsAreRunTurns(c: P.Config, s: P.State, tornAppend: nat -> seq<Option<nat>>, oks: nat -> bool, replies: nat -> nat -> bool, n: nat)
    requires s.worker.Idle?
    ensures var (t, torn, sent) := Turns(c.hasSpill, c.maxEntries, SnapshotOf(s), false, tornAppend, oks, replies, n);
            SnapshotOf(MachineTurns(c, s, oks, replies, n)) == t && !torn
  {
    if n > 0 {
      hide TurnOf, Turn, Delivered;
      TurnsAreRunTurns(c, s, tornAppend, oks, replies, n - 1);
      var t := MachineTurns(c, s, oks, replies, n - 1);
      if t.queue != [] {
        TurnIsRunOnce(c, t, oks(n - 1), replies(n - 1));
      }
    }
  }
}
