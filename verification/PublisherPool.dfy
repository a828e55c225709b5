/** The publisher with any number of workers: each worker takes the steps of the one-worker protocol on the
    shared queue, counters and spill file. What survives from one worker to several, and what does not. */
module PublisherPool {
  import opened Options
  import opened Lists
  import opened SpillLines
  import opened PublisherProtocol
  import opened PublisherGuarantees

  /** `shared.worker` is not used; it stays idle. */
  datatype Pool = Pool(shared: State, workers: seq<Worker>)

  datatype PoolAction = Shared(a: Action) | Step(w: nat, a: Action) | Restart

  /** The pool as worker `w` sees it. */
  function SeenBy(p: Pool, w: nat): State
    requires w < |p.workers|
  {
    p.shared.(worker := p.workers[w])
  }

  /** The tickets that the workers hold in memory. */
  function AllInFlight(workers: seq<Worker>): seq<nat> {
    if workers == [] then [] else AllInFlight(workers[..|workers| - 1]) + InFlight(workers[|workers| - 1])
  }

  /** What a crash makes the workers repeat. */
  function AllCaught(workers: seq<Worker>, e: seq<nat>): seq<nat> {
    if workers == [] then []
    else AllCaught(workers[..|workers| - 1], e) + Take(e, Unconfirmed(workers[|workers| - 1]))
  }

  function IdleWorkers(n: nat): seq<Worker> {
    seq(n, _ => Idle)
  }

  predicate PoolEnabled(p: Pool, action: PoolAction) {
    match action
    case Shared(a) => (a.Submit? || a.CorruptFile?) && Enabled(p.shared, a)
    case Step(w, a) =>
      w < |p.workers| && !a.Submit? && !a.CorruptFile? && !a.CrashAndRestart? && Enabled(SeenBy(p, w), a)
    case Restart => true
  }

  function PoolCrash(p: Pool): Pool {
    var s, h := p.shared, p.shared.past;
    Pool(State([], 0, Idle, s.lines, |s.lines|,
               h.(lost := h.lost + AllInFlight(p.workers) + s.queue,
                  repeats := h.repeats + AllCaught(p.workers, Entries(s.lines)),
                  crashes := h.crashes + 1,
                  droppedBefore := h.droppedBefore + s.droppedTotal)),
         IdleWorkers(|p.workers|))
  }

  function PoolNext(c: Config, p: Pool, action: PoolAction): Pool
    requires PoolEnabled(p, action)
  {
    match action
    case Shared(a) => p.(shared := Next(c, p.shared, a))
    case Step(w, a) =>
      var s := Next(c, SeenBy(p, w), a);
      Pool(s.(worker := Idle), p.workers[w := s.worker])
    case Restart => PoolCrash(p)
  }

  function PoolRun(c: Config, n: Positive, actions: seq<PoolAction>): Pool {
    if actions == [] then Pool(START, IdleWorkers(n))
    else
      var p := PoolRun(c, n, actions[..|actions| - 1]);
      var a := actions[|actions| - 1];
      if PoolEnabled(p, a) then PoolNext(c, p, a) else p
  }

  // ----- One worker

  function Embedded(a: Action): PoolAction {
    match a
    case Submit => Shared(a)
    case CorruptFile(_) => Shared(a)
    case CrashAndRestart => Restart
    case _ => Step(0, a)
  }

  function EmbeddedAll(actions: seq<Action>): seq<PoolAction> {
    if actions == [] then [] else EmbeddedAll(actions[..|actions| - 1]) + [Embedded(actions[|actions| - 1])]
  }

  function Single(s: State): Pool {
    Pool(s.(worker := Idle), [s.worker])
  }

  lemma SingleNext(c: Config, s: State, a: Action)
    ensures PoolEnabled(Single(s), Embedded(a)) <==> Enabled(s, a)
    ensures Enabled(s, a) ==> PoolNext(c, Single(s), Embedded(a)) == Single(Next(c, s, a))
  {
    hide Entries, Discard, Take, Newest, Oldest, OverLimit;
    SingleInFlight(s.worker, Entries(s.lines));
    assert IdleWorkers(1) == [Idle];
    if Embedded(a).Step? {
      assert SeenBy(Single(s), 0) == s;
    }
  }

  lemma SingleInFlight(w: Worker, e: seq<nat>)
    ensures AllInFlight([w]) == InFlight(w) && AllCaught([w], e) == Take(e, Unconfirmed(w))
  {
    hide Take;
    assert [w][..0] == [];
  }

  /** A pool of one worker is the protocol of one worker. */
  lemma {:induction false} OneWorkerPool(c: Config, actions: seq<Action>)
    ensures PoolRun(c, 1, EmbeddedAll(actions)) == Single(Run(c, actions))
  {
    if actions == [] {
      assert IdleWorkers(1) == [Idle];
    } else {
      hide Next, PoolNext, Enabled, PoolEnabled, Embedded;
      var init, a := actions[..|actions| - 1], actions[|actions| - 1];
      OneWorkerPool(c, init);
      SingleNext(c, Run(c, init), a);
      var all := EmbeddedAll(actions);
      assert all[..|all| - 1] == EmbeddedAll(init);
    }
  }

  // ----- Conservation, for any number of workers

  lemma {:induction false} InFlightConcat(a: seq<Worker>, b: seq<Worker>)
    ensures AllInFlight(a + b) == AllInFlight(a) + AllInFlight(b)
  {
    if b == [] {
      assert a + b == a;
    } else {
      hide InFlight;
      assert (a + b)[..|a + b| - 1] == a + b[..|b| - 1];
      InFlightConcat(a, b[..|b| - 1]);
    }
  }

  /** The tickets held around those of worker `w`, which one step of that worker leaves alone. */
  lemma InFlightAround(workers: seq<Worker>, w: nat, next: Worker)
    requires w < |workers|
    ensures var a, b := AllInFlight(workers[..w]), AllInFlight(workers[w + 1..]);
            && AllInFlight(workers) == a + (InFlight(workers[w]) + b)
            && AllInFlight(workers[w := next]) == a + (InFlight(next) + b)
  {
    hide AllInFlight, InFlight;
    var before, after, updated := workers[..w], workers[w + 1..], workers[w := next];
    assert workers == before + ([workers[w]] + after);
    assert updated == before + ([next] + after);
    InFlightConcat(before, [workers[w]] + after);
    InFlightConcat([workers[w]], after);
    InFlightConcat(before, [next] + after);
    InFlightConcat([next], after);
    SingleInFlight(workers[w], []);
    SingleInFlight(next, []);
  }

  function PoolBalance(p: Pool, t: nat): int {
    Balance(p.shared.(worker := Idle), t) + Copies(AllInFlight(p.workers), t)
  }

  lemma SeenBalance(p: Pool, w: nat, t: nat)
    requires w < |p.workers|
    ensures Balance(SeenBy(p, w), t) == Balance(p.shared.(worker := Idle), t) + Copies(InFlight(p.workers[w]), t)
  {
    hide Copies;
    CopiesNone(t);
  }

  lemma StepBalance(c: Config, p: Pool, w: nat, a: Action, t: nat)
    requires PoolEnabled(p, Step(w, a))
    ensures PoolBalance(PoolNext(c, p, Step(w, a)), t) == PoolBalance(p, t)
  {
    hide Next, Copies, Balance, AllInFlight, InFlight;
    var s, next := SeenBy(p, w), PoolNext(c, p, Step(w, a));
    var after := Next(c, s, a);
    BalanceNext(c, s, a, t);
    SeenBalance(p, w, t);
    SeenBalance(next, w, t);
    assert SeenBy(next, w) == after;
    InFlightAround(p.workers, w, after.worker);
    var x, y := AllInFlight(p.workers[..w]), AllInFlight(p.workers[w + 1..]);
    CopiesAdd(x, InFlight(p.workers[w]) + y, t);
    CopiesAdd(InFlight(p.workers[w]), y, t);
    CopiesAdd(x, InFlight(after.worker) + y, t);
    CopiesAdd(InFlight(after.worker), y, t);
  }

  lemma {:induction false} IdleHoldsNothing(n: nat)
    ensures AllInFlight(IdleWorkers(n)) == []
  {
    if n > 0 {
      assert IdleWorkers(n)[..n - 1] == IdleWorkers(n - 1);
      IdleHoldsNothing(n - 1);
    }
  }

  lemma SharedBalance(c: Config, p: Pool, a: Action, t: nat)
    requires PoolEnabled(p, Shared(a))
    ensures PoolBalance(PoolNext(c, p, Shared(a)), t) == PoolBalance(p, t)
  {
    hide Copies, AllInFlight, Balance;
    var s := p.shared.(worker := Idle);
    assert Enabled(s, a) && Next(c, s, a) == Next(c, p.shared, a).(worker := Idle);
    BalanceNext(c, s, a, t);
  }

  lemma CrashBalance(p: Pool, t: nat)
    ensures PoolBalance(PoolCrash(p), t) == PoolBalance(p, t)
  {
    hide Copies, Entries, AllInFlight, AllCaught;
    IdleHoldsNothing(|p.workers|);
    CopiesNone(t);
    CopiesAdd(p.shared.past.lost + AllInFlight(p.workers), p.shared.queue, t);
    CopiesAdd(p.shared.past.lost, AllInFlight(p.workers), t);
  }

  lemma PoolBalanceNext(c: Config, p: Pool, action: PoolAction, t: nat)
    requires PoolEnabled(p, action)
    ensures PoolBalance(PoolNext(c, p, action), t) == PoolBalance(p, t)
  {
    hide PoolBalance, PoolCrash, Next;
    match action
    case Shared(a) => SharedBalance(c, p, a, t);
    case Step(w, a) => StepBalance(c, p, w, a, t);
    case Restart => CrashBalance(p, t);
  }

  lemma StartBalance(n: nat, t: nat)
    ensures PoolBalance(Pool(START, IdleWorkers(n)), t) == 0
  {
    IdleHoldsNothing(n);
  }

  /** Places of `t` other than the spill file, whichever worker holds it. */
  function PoolElsewhere(p: Pool, t: nat): nat {
    Copies(p.shared.past.dropped, t) + Copies(p.shared.queue, t) + Copies(AllInFlight(p.workers), t) +
    Copies(p.shared.past.live, t) + Copies(p.shared.past.failed, t) + Copies(p.shared.past.lost, t)
  }

  lemma PoolBalanceIs(p: Pool, t: nat)
    ensures PoolBalance(p, t) == PoolElsewhere(p, t) + Copies(p.shared.past.spilled, t) - Issued(p.shared, t)
  {
    hide Copies;
    CopiesNone(t);
  }

  /** For any number of workers, with or without a spill store, in every interleaving with crashes: each
      submitted payload is in exactly one place, or was spilled once. */
  lemma {:induction false} PoolConserves(c: Config, n: Positive, actions: seq<PoolAction>, t: nat)
    ensures var p := PoolRun(c, n, actions);
            PoolElsewhere(p, t) + Copies(p.shared.past.spilled, t) == if t < p.shared.past.submitted then 1 else 0
  {
    hide PoolElsewhere, Copies;
    PoolBalanced(c, n, actions, t);
    PoolBalanceIs(PoolRun(c, n, actions), t);
  }

  lemma {:induction false} PoolBalanced(c: Config, n: Positive, actions: seq<PoolAction>, t: nat)
    ensures PoolBalance(PoolRun(c, n, actions), t) == 0
  {
    hide PoolBalance, PoolNext, PoolEnabled;
    if actions == [] {
      StartBalance(n, t);
    } else {
      var init, a := actions[..|actions| - 1], actions[|actions| - 1];
      PoolBalanced(c, n, init, t);
      if PoolEnabled(PoolRun(c, n, init), a) {
        PoolBalanceNext(c, PoolRun(c, n, init), a, t);
      }
    }
  }

  /** The workers' states when there is no spill store. */
  ghost predicate NoSpill(p: Pool) {
    && p.shared.past.spilled == []
    && forall w :: 0 <= w < |p.workers| ==> p.workers[w].Idle? || p.workers[w].Publishing?
  }

  lemma NoSpillNext(c: Config, p: Pool, action: PoolAction)
    requires !c.hasSpill && NoSpill(p) && PoolEnabled(p, action)
    ensures NoSpill(PoolNext(c, p, action))
  {
    hide Entries, AllInFlight, AllCaught;
  }

  lemma {:induction false} NeverSpills(c: Config, n: Positive, actions: seq<PoolAction>)
    requires !c.hasSpill
    ensures NoSpill(PoolRun(c, n, actions))
  {
    if actions != [] {
      hide NoSpill, PoolNext, PoolEnabled;
      var init, a := actions[..|actions| - 1], actions[|actions| - 1];
      NeverSpills(c, n, init);
      if PoolEnabled(PoolRun(c, n, init), a) {
        NoSpillNext(c, PoolRun(c, n, init), a);
      }
    }
  }

  /** Any number of workers without a spill store: each submitted payload is refused, queued, in flight,
      delivered, discarded on failure or lost from memory in a crash, and in one of these places only. */
  lemma PoolExactlyOnePlace(c: Config, n: Positive, actions: seq<PoolAction>, t: nat)
    requires !c.hasSpill
    ensures var p := PoolRun(c, n, actions);
            PoolElsewhere(p, t) == if t < p.shared.past.submitted then 1 else 0
  {
    hide PoolElsewhere, PoolRun, Copies;
    PoolConserves(c, n, actions, t);
    NeverSpills(c, n, actions);
    CopiesNone(t);
  }

  ghost predicate DropsMatch(c: Config, s: State) {
    |s.queue| <= c.capacity && s.past.droppedBefore + s.droppedTotal == |s.past.dropped|
  }

  lemma DropsNext(c: Config, s: State, a: Action)
    requires Enabled(s, a) && DropsMatch(c, s)
    ensures DropsMatch(c, Next(c, s, a))
  {
    hide Entries, Discard, Take, Newest, Oldest, OverLimit;
  }

  lemma PoolDropsNext(c: Config, p: Pool, action: PoolAction)
    requires PoolEnabled(p, action) && DropsMatch(c, p.shared)
    ensures DropsMatch(c, PoolNext(c, p, action).shared)
  {
    hide Next, Entries, AllInFlight, AllCaught;
    match action
    case Shared(a) => DropsNext(c, p.shared, a);
    case Step(w, a) => DropsNext(c, SeenBy(p, w), a);
    case Restart =>
  }

  /** The drop counter, carried over restarts, is the number of refused submissions; the queue keeps its bound. */
  lemma {:induction false} PoolDropsAreCounted(c: Config, n: Positive, actions: seq<PoolAction>)
    ensures DropsMatch(c, PoolRun(c, n, actions).shared)
  {
    if actions != [] {
      hide DropsMatch, PoolNext, PoolEnabled;
      var init, a := actions[..|actions| - 1], actions[|actions| - 1];
      PoolDropsAreCounted(c, n, init);
      if PoolEnabled(PoolRun(c, n, init), a) {
        PoolDropsNext(c, PoolRun(c, n, init), a);
      }
    }
  }

  // ----- The order of live deliveries

  /** How many of the tickets were submitted before `t`. */
  function Below(xs: seq<nat>, t: nat): nat {
    if xs == [] then 0 else Below(xs[..|xs| - 1], t) + if xs[|xs| - 1] < t then 1 else 0
  }

  lemma {:induction false} BelowConcat(a: seq<nat>, b: seq<nat>, t: nat)
    ensures Below(a + b, t) == Below(a, t) + Below(b, t)
  {
    if b == [] {
      assert a + b == a;
    } else {
      assert (a + b)[..|a + b| - 1] == a + b[..|b| - 1];
      BelowConcat(a, b[..|b| - 1], t);
    }
  }

  lemma {:induction false} BelowIsBounded(xs: seq<nat>, t: nat)
    ensures Below(xs, t) <= |xs|
    ensures (forall i :: 0 <= i < |xs| ==> xs[i] >= t) ==> Below(xs, t) == 0
    ensures Below(xs, t) == 0 ==> forall i :: 0 <= i < |xs| ==> xs[i] >= t
  {
    if xs != [] {
      BelowIsBounded(xs[..|xs| - 1], t);
    }
  }

  /** The earlier payloads that the `i`-th delivery overtook, delivered since or still in flight. */
  function Overtaken(live: seq<nat>, flying: seq<nat>, i: nat): nat
    requires i < |live|
  {
    Below(live[i + 1..], live[i]) + Below(flying, live[i])
  }

  /** No delivery overtook more payloads than there are other workers. */
  ghost predicate BoundedOvertaking(live: seq<nat>, flying: seq<nat>, n: nat) {
    forall i :: 0 <= i < |live| ==> Overtaken(live, flying, i) < n
  }

  /** What is queued was submitted after everything delivered or in flight. */
  ghost predicate QueueIsLast(p: Pool) {
    var taken, queue := p.shared.past.live + AllInFlight(p.workers), p.shared.queue;
    && (forall x, y :: x in taken && y in queue ==> x < y)
    && (forall x :: x in taken ==> x < p.shared.past.submitted)
    && Increasing(queue) && AllBelow(queue, p.shared.past.submitted)
  }

  ghost predicate LiveOrder(p: Pool) {
    QueueIsLast(p) && BoundedOvertaking(p.shared.past.live, AllInFlight(p.workers), |p.workers|)
  }

  lemma {:induction false} InFlightIsBounded(workers: seq<Worker>)
    ensures |AllInFlight(workers)| <= |workers|
  {
    if workers != [] {
      InFlightIsBounded(workers[..|workers| - 1]);
    }
  }

  /** One ticket leaves the workers and is delivered. */
  lemma DeliverKeepsBound(live: seq<nat>, a: seq<nat>, t: nat, b: seq<nat>, n: nat)
    requires BoundedOvertaking(live, a + ([t] + b), n) && |a| + |b| < n
    ensures BoundedOvertaking(live + [t], a + ([] + b), n)
  {
    var after, flying := live + [t], a + ([] + b);
    forall i | 0 <= i < |after| ensures Overtaken(after, flying, i) < n {
      if i < |live| {
        assert after[i + 1..] == live[i + 1..] + [t];
        BelowConcat(live[i + 1..], [t], live[i]);
        BelowConcat(a, [t] + b, live[i]);
        BelowConcat([t], b, live[i]);
        BelowConcat(a, [] + b, live[i]);
        assert [] + b == b;
        assert Overtaken(live, a + ([t] + b), i) < n;
      } else {
        assert after[i + 1..] == [];
        BelowIsBounded(flying, t);
      }
    }
  }

  /** One ticket leaves the workers for good. */
  lemma LeaveKeepsBound(live: seq<nat>, a: seq<nat>, t: nat, b: seq<nat>, n: nat)
    requires BoundedOvertaking(live, a + ([t] + b), n)
    ensures BoundedOvertaking(live, a + ([] + b), n)
  {
    forall i | 0 <= i < |live| ensures Overtaken(live, a + ([] + b), i) < n {
      BelowConcat(a, [t] + b, live[i]);
      BelowConcat([t], b, live[i]);
      BelowConcat(a, [] + b, live[i]);
      assert [] + b == b;
      assert Overtaken(live, a + ([t] + b), i) < n;
    }
  }

  /** One worker takes a ticket later than everything delivered. */
  lemma TakeKeepsBound(live: seq<nat>, a: seq<nat>, t: nat, b: seq<nat>, n: nat)
    requires BoundedOvertaking(live, a + ([] + b), n) && forall i :: 0 <= i < |live| ==> live[i] < t
    ensures BoundedOvertaking(live, a + ([t] + b), n)
  {
    forall i | 0 <= i < |live| ensures Overtaken(live, a + ([t] + b), i) < n {
      BelowConcat(a, [t] + b, live[i]);
      BelowConcat([t], b, live[i]);
      BelowConcat(a, [] + b, live[i]);
      BelowIsBounded([t], live[i]);
      assert [] + b == b;
      assert Overtaken(live, a + ([] + b), i) < n;
    }
  }

  lemma CrashKeepsBound(live: seq<nat>, flying: seq<nat>, n: nat)
    requires BoundedOvertaking(live, flying, n)
    ensures BoundedOvertaking(live, [], n)
  {
    forall i | 0 <= i < |live| ensures Overtaken(live, [], i) < n {
      assert Overtaken(live, flying, i) < n;
    }
  }

  /** What a worker's step does to the deliveries and to what that worker holds. */
  lemma StepMoves(c: Config, s: State, a: Action)
    requires Enabled(s, a) && !a.Submit? && !a.CorruptFile? && !a.CrashAndRestart?
    ensures var t := Next(c, s, a);
            && t.past.submitted == s.past.submitted
            && t.queue == (if a.TakeFromQueue? then s.queue[1..] else s.queue)
            && t.past.live == s.past.live + (if a == PublishReturns(true) then InFlight(s.worker) else [])
            && InFlight(t.worker) == (if a.TakeFromQueue? then [s.queue[0]]
                                      else if a == PublishReturns(true) || a.Spill? || (a.PublishReturns? && !c.hasSpill) then []
                                      else InFlight(s.worker))
            && (a.TakeFromQueue? ==> InFlight(s.worker) == [] && s.queue != [])
            && (a.PublishReturns? || a.Spill? ==> |InFlight(s.worker)| == 1)
  {
    hide Entries, Discard, Take, Newest, Oldest, OverLimit;
    assert s.past.live + [] == s.past.live;
  }

  lemma StepBound(c: Config, p: Pool, w: nat, a: Action)
    requires PoolEnabled(p, Step(w, a)) && LiveOrder(p)
    ensures var next := PoolNext(c, p, Step(w, a));
            BoundedOvertaking(next.shared.past.live, AllInFlight(next.workers), |next.workers|)
  {
    hide Next, BoundedOvertaking, AllInFlight, InFlight, Enabled;
    var s := SeenBy(p, w);
    var after := Next(c, s, a);
    StepMoves(c, s, a);
    InFlightAround(p.workers, w, after.worker);
    var x, y, live, n := AllInFlight(p.workers[..w]), AllInFlight(p.workers[w + 1..]), s.past.live, |p.workers|;
    InFlightIsBounded(p.workers[..w]);
    InFlightIsBounded(p.workers[w + 1..]);
    assert live + [] == live;
    if a.TakeFromQueue? {
      NotBelow(p, live);
      TakeKeepsBound(live, x, s.queue[0], y, n);
    } else if a == PublishReturns(true) {
      var t := InFlight(s.worker)[0];
      assert InFlight(s.worker) == [t];
      DeliverKeepsBound(live, x, t, y, n);
    } else if InFlight(after.worker) != InFlight(s.worker) {
      var t := InFlight(s.worker)[0];
      assert InFlight(s.worker) == [t];
      LeaveKeepsBound(live, x, t, y, n);
    }
  }

  lemma NotBelow(p: Pool, live: seq<nat>)
    requires QueueIsLast(p) && p.shared.queue != [] && live == p.shared.past.live
    ensures forall i :: 0 <= i < |live| ==> live[i] < p.shared.queue[0]
  {
    hide AllInFlight;
    assert p.shared.queue[0] in p.shared.queue;
    forall i | 0 <= i < |live| ensures live[i] < p.shared.queue[0] {
      assert live[i] in live + AllInFlight(p.workers);
    }
  }

  /** All in one line: delivered and in flight, then queued, then not yet submitted. */
  lemma StepQueue(c: Config, p: Pool, w: nat, a: Action)
    requires PoolEnabled(p, Step(w, a)) && QueueIsLast(p)
    ensures QueueIsLast(PoolNext(c, p, Step(w, a)))
  {
    hide Next, AllInFlight, InFlight, Enabled;
    var s, next := SeenBy(p, w), PoolNext(c, p, Step(w, a));
    var after := Next(c, s, a);
    StepMoves(c, s, a);
    InFlightAround(p.workers, w, after.worker);
    var x, y := AllInFlight(p.workers[..w]), AllInFlight(p.workers[w + 1..]);
    var taken, taken' := s.past.live + AllInFlight(p.workers), next.shared.past.live + AllInFlight(next.workers);
    assert taken' == s.past.live + (if a == PublishReturns(true) then InFlight(s.worker) else []) + (x + (InFlight(after.worker) + y));
    assert taken == s.past.live + (x + (InFlight(s.worker) + y));
    forall t | t in taken' ensures t in taken || (a.TakeFromQueue? && t == s.queue[0]) {
    }
    QueueShrinks(s.queue, after.queue, taken, taken', s.past.submitted);
  }

  lemma QueueShrinks(queue: seq<nat>, queue': seq<nat>, taken: seq<nat>, taken': seq<nat>, bound: nat)
    requires forall x, y :: x in taken && y in queue ==> x < y
    requires forall x :: x in taken ==> x < bound
    requires Increasing(queue) && AllBelow(queue, bound)
    requires queue' == queue || (queue != [] && queue' == queue[1..])
    requires forall t :: t in taken' ==> t in taken || (queue != [] && queue' == queue[1..] && t == queue[0])
    ensures forall x, y :: x in taken' && y in queue' ==> x < y
    ensures forall x :: x in taken' ==> x < bound
    ensures Increasing(queue') && AllBelow(queue', bound)
  {
    forall x, y | x in taken' && y in queue' ensures x < y {
      assert y in queue;
    }
  }

  lemma PoolOrderNext(c: Config, p: Pool, action: PoolAction)
    requires PoolEnabled(p, action) && LiveOrder(p)
    ensures LiveOrder(PoolNext(c, p, action))
  {
    match action
    case Shared(a) =>
      hide Entries, AllInFlight, BoundedOvertaking;
    case Step(w, a) =>
      hide PoolNext, QueueIsLast, PoolEnabled, BoundedOvertaking, AllInFlight, Next;
      StepBound(c, p, w, a);
      StepQueue(c, p, w, a);
      assert |PoolNext(c, p, action).workers| == |p.workers| by { StepKeepsSize(c, p, w, a); }
    case Restart =>
      hide Entries, AllInFlight, AllCaught, BoundedOvertaking;
      IdleHoldsNothing(|p.workers|);
      CrashKeepsBound(p.shared.past.live, AllInFlight(p.workers), |p.workers|);
      assert p.shared.past.live + [] == p.shared.past.live;
      assert forall x :: x in p.shared.past.live ==> x in p.shared.past.live + AllInFlight(p.workers);
  }

  lemma StepKeepsSize(c: Config, p: Pool, w: nat, a: Action)
    requires PoolEnabled(p, Step(w, a))
    ensures |PoolNext(c, p, Step(w, a)).workers| == |p.workers|
  {
    hide Next;
  }

  lemma StartOrder(n: Positive)
    ensures LiveOrder(Pool(START, IdleWorkers(n)))
  {
    IdleHoldsNothing(n);
  }

  lemma {:induction false} PoolSize(c: Config, n: Positive, actions: seq<PoolAction>)
    ensures |PoolRun(c, n, actions).workers| == n
  {
    if actions != [] {
      hide Next, PoolEnabled, Entries, AllInFlight, AllCaught;
      PoolSize(c, n, actions[..|actions| - 1]);
    }
  }

  lemma {:induction false} PoolOrder(c: Config, n: Positive, actions: seq<PoolAction>)
    ensures LiveOrder(PoolRun(c, n, actions))
  {
    hide LiveOrder, PoolNext, PoolEnabled;
    if actions == [] {
      StartOrder(n);
    } else {
      var init, a := actions[..|actions| - 1], actions[|actions| - 1];
      PoolOrder(c, n, init);
      if PoolEnabled(PoolRun(c, n, init), a) {
        PoolOrderNext(c, PoolRun(c, n, init), a);
      }
    }
  }

  /** With `n` workers each live delivery overtakes fewer than `n` payloads submitted before it. */
  lemma OvertakesFewerThanWorkers(c: Config, n: Positive, actions: seq<PoolAction>, i: nat)
    requires i < |PoolRun(c, n, actions).shared.past.live|
    ensures var live := PoolRun(c, n, actions).shared.past.live;
            Below(live[i + 1..], live[i]) < n
  {
    hide PoolRun, QueueIsLast, Below, AllInFlight;
    PoolOrder(c, n, actions);
    PoolSize(c, n, actions);
    var p := PoolRun(c, n, actions);
    assert Overtaken(p.shared.past.live, AllInFlight(p.workers), i) < n;
  }

  lemma LiveIsDistinct(c: Config, n: Positive, actions: seq<PoolAction>)
    ensures Distinct(PoolRun(c, n, actions).shared.past.live)
  {
    hide PoolRun, AllInFlight;
    var live := PoolRun(c, n, actions).shared.past.live;
    forall i, j | 0 <= i < j < |live| ensures live[i] != live[j] {
      PoolConserves(c, n, actions, live[i]);
      if live[i] == live[j] {
        TwoCopies(live, i, j);
      }
    }
  }

  lemma TwoCopies(xs: seq<nat>, i: nat, j: nat)
    requires i < j < |xs| && xs[i] == xs[j]
    ensures Copies(xs, xs[i]) >= 2
  {
    var t := xs[i];
    assert xs == xs[..j] + xs[j..];
    assert xs[..j][i] == t && xs[j..][0] == t;
    CopiesPositive(xs[..j], t);
    CopiesPositive(xs[j..], t);
    CopiesAdd(xs[..j], xs[j..], t);
  }

  lemma OneWorkerInOrder(c: Config, actions: seq<PoolAction>)
    ensures Increasing(PoolRun(c, 1, actions).shared.past.live)
  {
    hide PoolRun, Below;
    var live := PoolRun(c, 1, actions).shared.past.live;
    LiveIsDistinct(c, 1, actions);
    forall i, j | 0 <= i < j < |live| ensures live[i] < live[j] {
      OvertakesFewerThanWorkers(c, 1, actions, i);
      BelowIsBounded(live[i + 1..], live[i]);
      assert live[i + 1..][j - i - 1] == live[j];
    }
  }

  // ----- Reachable states

  ghost predicate Reachable(c: Config, n: Positive, p: Pool) {
    exists actions :: PoolRun(c, n, actions) == p
  }

  /** One step from a reachable state. */
  lemma Do(c: Config, n: Positive, p: Pool, a: PoolAction) returns (q: Pool)
    requires Reachable(c, n, p) && PoolEnabled(p, a)
    ensures q == PoolNext(c, p, a) && Reachable(c, n, q)
  {
    hide PoolNext, PoolEnabled;
    var actions :| PoolRun(c, n, actions) == p;
    assert (actions + [a])[..|actions|] == actions;
    q := PoolNext(c, p, a);
    assert PoolRun(c, n, actions + [a]) == q;
  }

  lemma AtStart(c: Config, n: Positive)
    ensures Reachable(c, n, Pool(START, IdleWorkers(n)))
  {
    assert PoolRun(c, n, []) == Pool(START, IdleWorkers(n));
  }

  /** Two workers can deliver the second payload before the first. */
  lemma SecondFirst(c: Config, n: Positive) returns (p: Pool)
    requires n >= 2 && c.capacity >= 1
    ensures Reachable(c, n, p) && p.shared.past.live == [1, 0]
  {
    hide Entries, Reachable;
    AtStart(c, n);
    p := Pool(START, IdleWorkers(n));
    p := Do(c, n, p, Shared(Submit));
    p := Do(c, n, p, Step(0, TakeFromQueue));
    p := Do(c, n, p, Shared(Submit));
    p := Do(c, n, p, Step(1, TakeFromQueue));
    assert p.workers[0] == Publishing(0) && p.workers[1] == Publishing(1) && p.shared.past.live == [];
    p := Do(c, n, p, Step(1, PublishReturns(true)));
    assert p.workers[0] == Publishing(0) && p.shared.past.live == [1];
    p := Do(c, n, p, Step(0, PublishReturns(true)));
  }

  ghost predicate DeliversInOrder(c: Config, n: Positive, actions: seq<PoolAction>) {
    Increasing(PoolRun(c, n, actions).shared.past.live)
  }

  /** Live deliveries are in submission order in every run if and only if there is one worker. */
  lemma LiveOrderIff(c: Config, n: Positive)
    requires c.capacity >= 1
    ensures (forall actions :: DeliversInOrder(c, n, actions)) <==> n == 1
  {
    hide PoolRun;
    if n == 1 {
      forall actions ensures DeliversInOrder(c, n, actions) {
        OneWorkerInOrder(c, actions);
      }
    } else {
      var p := SecondFirst(c, n);
      var actions :| PoolRun(c, n, actions) == p;
      assert p.shared.past.live[0] > p.shared.past.live[1];
      assert !DeliversInOrder(c, n, actions);
    }
  }

  // ----- Two workers on one spill file

  /** Two workers that have peeked the same file and replayed `d1` and `d2` of its payloads discard one after
      the other: exactly the replayed payloads go if and only if one of them replayed nothing or the longer
      prefix was everything. */
  lemma ConcurrentDiscardsSafeIff(c: Config, p: Pool, i: nat, j: nat, d1: nat, d2: nat)
    requires i < |p.workers| && j < |p.workers| && i != j
    requires p.workers[i] == Discarding(d1) && p.workers[j] == Discarding(d2)
    requires d1 <= |Entries(p.shared.lines)| && d2 <= |Entries(p.shared.lines)|
    ensures var e, longer := Entries(p.shared.lines), if d1 < d2 then d2 else d1;
            var q := PoolNext(c, PoolNext(c, p, Step(i, DiscardDelivered)), Step(j, DiscardDelivered));
            Entries(q.shared.lines) == e[longer..] <==> d1 == 0 || d2 == 0 || longer == |e|
  {
    hide Entries, Discard, Take;
    ConcurrentDrainsSafeIff(p.shared.lines, d1, d2);
    DiscardNothing(p.shared.lines);
    DiscardNothing(Discard(p.shared.lines, d1));
  }

  lemma DiscardNothing<T>(lines: seq<Option<T>>)
    ensures Discard(lines, 0) == lines
  {
  }

  /** Payload `t` was spilled and is gone: neither on disk, nor evicted, nor ever delivered. */
  ghost predicate Vanished(s: State, t: nat) {
    t in s.past.spilled && t !in Entries(s.lines) && t !in s.past.evicted && t !in s.past.replayed && t !in s.past.live
  }

  /** A failed publish of a new payload by the first worker puts it on disk. */
  lemma SpillsOne(c: Config, p: Pool) returns (q: Pool)
    requires Reachable(c, 2, p) && c.hasSpill && c.capacity >= 1
    requires p.workers == [Idle, Idle] && p.shared.queue == [] && !OverLimit(p.shared.count + 1, c.maxEntries)
    ensures Reachable(c, 2, q) && q.workers == [Idle, Idle]
    ensures var s, h := p.shared, p.shared.past;
            q.shared == s.(worker := Idle, lines := s.lines + [Some(h.submitted)], count := s.count + 1,
                           past := h.(submitted := h.submitted + 1, spilled := h.spilled + [h.submitted]))
  {
    hide Entries, Reachable, OverLimit;
    q := Do(c, 2, p, Shared(Submit));
    q := Do(c, 2, q, Step(0, TakeFromQueue));
    q := Do(c, 2, q, Step(0, PublishReturns(false)));
    q := Do(c, 2, q, Step(0, Spill));
  }

  /** A live success of worker `w` makes it peek the backlog. */
  lemma Peeks(c: Config, p: Pool, w: nat) returns (q: Pool)
    requires Reachable(c, 2, p) && c.hasSpill && c.capacity >= 1 && w < |p.workers| == 2
    requires p.workers[w] == Idle && p.shared.queue == [] && p.shared.count > 0
    ensures Reachable(c, 2, q) && q.workers == p.workers[w := Draining(Take(Entries(p.shared.lines), SPILL_DRAIN_BATCH_SIZE), 0)]
    ensures var s, h := p.shared, p.shared.past;
            q.shared == s.(worker := Idle, past := h.(submitted := h.submitted + 1, live := h.live + [h.submitted]))
  {
    hide Entries, Reachable, Take;
    q := Do(c, 2, p, Shared(Submit));
    q := Do(c, 2, q, Step(w, TakeFromQueue));
    q := Do(c, 2, q, Step(w, PublishReturns(true)));
    q := Do(c, 2, q, Step(w, CheckEmpty));
    q := Do(c, 2, q, Step(w, Peek));
  }

  /** Worker `w` replays the first payload of its batch and fails at the second. */
  lemma ReplaysOne(c: Config, p: Pool, w: nat) returns (q: Pool)
    requires Reachable(c, 2, p) && w < |p.workers| == 2
    requires p.workers[w].Draining? && p.workers[w].done == 0 && |p.workers[w].batch| >= 2
    ensures Reachable(c, 2, q) && q.workers == p.workers[w := Discarding(1)]
    ensures var s, h := p.shared, p.shared.past;
            q.shared == s.(worker := Idle, past := h.(replayed := h.replayed + [p.workers[w].batch[0]]))
  {
    hide Reachable;
    q := Do(c, 2, p, Step(w, ReplayReturns(true)));
    q := Do(c, 2, q, Step(w, ReplayReturns(false)));
  }

  lemma TwoSpilled(c: Config) returns (p: Pool)
    requires c.hasSpill && c.capacity >= 1 && c.maxEntries >= 2
    ensures Reachable(c, 2, p) && p.workers == [Idle, Idle]
    ensures p.shared == START.(lines := [Some(0), Some(1)], count := 2, past := NO_HISTORY.(submitted := 2, spilled := [0, 1]))
  {
    hide Reachable, Entries, Take, Discard;
    AtStart(c, 2);
    p := Pool(START, IdleWorkers(2));
    assert p.workers == [Idle, Idle];
    p := SpillsOne(c, p);
    p := SpillsOne(c, p);
  }

  /** Both workers have replayed the first payload and are about to discard it. */
  lemma TwoDiscarding(c: Config) returns (p: Pool)
    requires c.hasSpill && c.capacity >= 1 && c.maxEntries >= 2
    ensures Reachable(c, 2, p) && p.workers == [Discarding(1), Discarding(1)] && p.shared.lines == [Some(0), Some(1)]
    ensures var h := p.shared.past; h.spilled == [0, 1] && h.replayed == [0, 0] && h.live == [2, 3] && h.evicted == []
  {
    hide Reachable, Entries, Take, Discard, PoolNext, PoolEnabled;
    p := TwoSpilled(c);
    TwoLines();
    p := Peeks(c, p, 0);
    p := Peeks(c, p, 1);
    assert p.workers == [Draining([0, 1], 0), Draining([0, 1], 0)];
    p := ReplaysOne(c, p, 0);
    p := ReplaysOne(c, p, 1);
  }

  /** With two workers on one spill store a payload can vanish: both replay the first payload of the file, and
      the second discard removes the next one, which nobody has delivered. */
  lemma TwoDrainsLosePayload(c: Config) returns (p: Pool)
    requires c.hasSpill && c.capacity >= 1 && c.maxEntries >= 2
    ensures Reachable(c, 2, p) && Vanished(p.shared, 1)
  {
    hide Reachable, Entries, Take, Discard;
    p := TwoDiscarding(c);
    TwoLines();
    p := Do(c, 2, p, Step(0, DiscardDelivered));
    p := Do(c, 2, p, Step(1, DiscardDelivered));
  }

  lemma TwoLines()
    ensures Take(Entries<nat>([Some(0), Some(1)]), SPILL_DRAIN_BATCH_SIZE) == [0, 1]
    ensures Discard<nat>([Some(0), Some(1)], 1) == [Some(1)] && Discard<nat>([Some(1)], 1) == []
    ensures Entries<nat>([]) == []
  {
    EntriesCons<nat>(Some(0), [Some(1)]);
    EntriesOne<nat>(Some(1));
    assert [Some(0)] + [Some(1)] == [Some(0), Some(1)];
  }
}
