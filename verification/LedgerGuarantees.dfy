/** Ledger against firewall, over every run. */
module LedgerGuarantees {
  import opened BlockLedger

  // ----- What holds in every run

  ghost predicate KeysCoincide(l: Ledger) {
    l.until.Keys == l.lastBlock.Keys
  }

  ghost predicate KeysAreRules(l: Ledger) {
    forall ip :: ip in l.until ==> ip in l.rules
  }

  ghost predicate NoEdits(ops: seq<Op>) {
    forall i :: 0 <= i < |ops| ==> !ops[i].OutsideEdit?
  }

  ghost predicate Succeeds(op: Op) {
    match op
    case TempBlock(_, _, _, _, luck) => luck == Luck({}, true, true, true)
    case ManualUnblock(_, deleteRuns) => deleteRuns
    case ExpireBlocks(_, failedDeletes) => failedDeletes == {}
    case _ => true
  }

  ghost predicate NoFailures(ops: seq<Op>) {
    forall i :: 0 <= i < |ops| ==> Succeeds(ops[i])
  }

  lemma NextKeepsKeys(h: Host, l: Ledger, op: Op)
    requires KeysCoincide(l)
    ensures KeysCoincide(Next(h, l, op).0)
  {
    if op.TempBlock? {
      var swept := Expire(l, op.sweepTime, op.luck.failedDeletes);
      assert KeysCoincide(swept);
      hide Expire;
      assert KeysCoincide(Mark(swept, op.ip, op.duration, op.time));
    }
  }

  lemma ExpireKeepsRules(l: Ledger, now: real, failed: set<string>)
    requires KeysAreRules(l)
    ensures KeysAreRules(Expire(l, now, failed))
  {
  }

  lemma NextKeepsRules(h: Host, l: Ledger, op: Op)
    requires KeysAreRules(l) && !op.OutsideEdit?
    ensures KeysAreRules(Next(h, l, op).0)
  {
    if op.TempBlock? {
      ExpireKeepsRules(l, op.sweepTime, op.luck.failedDeletes);
      hide Expire;
    } else if op.ExpireBlocks? {
      ExpireKeepsRules(l, op.now, op.failedDeletes);
      hide Expire;
    }
  }

  /** Deadlines and last block times are kept for the same addresses, whatever fails and whoever edits the
      rules; without outside edits each of those addresses has a rule. */
  lemma {:induction false} LedgerWithinFirewall(h: Host, l: Ledger, ops: seq<Op>)
    requires KeysCoincide(l)
    ensures KeysCoincide(RunFrom(h, l, ops))
    ensures KeysAreRules(l) && NoEdits(ops) ==> KeysAreRules(RunFrom(h, l, ops))
  {
    if ops != [] {
      hide Next, KeysCoincide, KeysAreRules;
      LedgerWithinFirewall(h, l, ops[..|ops| - 1]);
      NextKeepsKeys(h, RunFrom(h, l, ops[..|ops| - 1]), ops[|ops| - 1]);
      if KeysAreRules(l) && NoEdits(ops) {
        NextKeepsRules(h, RunFrom(h, l, ops[..|ops| - 1]), ops[|ops| - 1]);
      }
    }
  }

  // ----- Orphans: rules that no entry stands for

  /** How many copies of the rule of `ip` are in the firewall beyond the one its entry accounts for. */
  function Spare(l: Ledger, ip: string): int {
    l.rules[ip] as int - if ip in l.until then 1 else 0
  }

  /** Each rule belongs to exactly one entry, and each entry has its rule. */
  ghost predicate Exact(l: Ledger) {
    l.rules == multiset(l.until.Keys)
  }

  lemma ExactIff(l: Ledger)
    ensures Exact(l) <==> forall ip :: Spare(l, ip) == 0
  {
    if forall ip :: Spare(l, ip) == 0 {
      forall ip ensures l.rules[ip] == multiset(l.until.Keys)[ip] {
        assert Spare(l, ip) == 0;
      }
    }
  }

  /** A sweep leaves one more orphan for exactly the expired addresses whose delete failed. */
  lemma ExpireOrphans(l: Ledger, now: real, failed: set<string>, ip: string)
    requires KeysAreRules(l)
    ensures Spare(Expire(l, now, failed), ip)
         == Spare(l, ip) + if ip in Expired(l, now) && ip in failed then 1 else 0
  {
  }

  /** The copies of a rule that let a sweep at `now` leave the right ones: one for a live entry, at most one
      for an expired entry whose delete succeeds, none for any other address. */
  predicate FitForSweep(l: Ledger, now: real, failed: set<string>, ip: string) {
    if ip in l.until && l.until[ip] > now then l.rules[ip] == 1
    else if ip in l.until && ip !in failed then l.rules[ip] <= 1
    else l.rules[ip] == 0
  }

  lemma SweepCopies(l: Ledger, now: real, failed: set<string>, ip: string)
    ensures var live := set x | x in l.until && l.until[x] > now;
            Expire(l, now, failed).rules[ip] == multiset(live)[ip] <==> FitForSweep(l, now, failed, ip)
  {
  }

  lemma EqualCopies(a: multiset<string>, b: multiset<string>)
    ensures a == b <==> forall ip :: a[ip] == b[ip]
  {
  }

  /** After a sweep at `now` of any ledger and firewall the rules are exactly those with a later deadline, once
      each, if and only if every address was fit for it. Where each entry still has its rule, that means: no
      orphan rule before, and no failed delete of an expired address. */
  lemma SweepIsExactIff(l: Ledger, now: real, failed: set<string>)
    ensures Expire(l, now, failed).rules == multiset(set ip | ip in l.until && l.until[ip] > now)
        <==> forall ip :: FitForSweep(l, now, failed, ip)
    ensures KeysAreRules(l) ==>
              ((forall ip :: FitForSweep(l, now, failed, ip)) <==> Exact(l) && Expired(l, now) !! failed)
  {
    hide Expire, FitForSweep, Exact, Spare, Expired;
    forall ip ensures
      Expire(l, now, failed).rules[ip] == multiset(set x | x in l.until && l.until[x] > now)[ip] <==> FitForSweep(l, now, failed, ip)
    {
      SweepCopies(l, now, failed, ip);
    }
    EqualCopies(Expire(l, now, failed).rules, multiset(set x | x in l.until && l.until[x] > now));
    if KeysAreRules(l) {
      ExactIff(l);
      forall ip ensures FitForSweep(l, now, failed, ip) <==> Spare(l, ip) == 0 && !(ip in Expired(l, now) && ip in failed) {
        FitIsSpareless(l, now, failed, ip);
      }
    }
  }

  lemma FitIsSpareless(l: Ledger, now: real, failed: set<string>, ip: string)
    requires KeysAreRules(l)
    ensures FitForSweep(l, now, failed, ip) <==> Spare(l, ip) == 0 && !(ip in Expired(l, now) && ip in failed)
  {
  }

  lemma ExpireKeepsExact(l: Ledger, now: real)
    requires Exact(l)
    ensures Exact(Expire(l, now, {}))
  {
  }

  lemma MarkKeys(until: map<string, real>, ip: string, deadline: real)
    ensures ip in until ==> until[ip := deadline].Keys == until.Keys
    ensures ip !in until ==> multiset(until[ip := deadline].Keys) == multiset(until.Keys) + multiset{ip}
  {
    assert until[ip := deadline].Keys == until.Keys + {ip};
  }

  lemma BlockKeepsExact(l: Ledger, ip: string, duration: int, time: real)
    requires Exact(l)
    ensures Exact(BlockAfterSweep(l, ip, duration, time, Luck({}, true, true, true)).0)
  {
    hide Deadline;
    assert ip in l.rules <==> ip in l.until;
    MarkKeys(l.until, ip, Deadline(time, duration));
  }

  lemma UnblockKeepsExact(h: Host, l: Ledger, ip: string)
    requires Exact(l)
    ensures Exact(Next(h, l, ManualUnblock(ip, true)).0)
  {
    assert ip in l.rules <==> ip in l.until;
  }

  lemma NextKeepsExact(h: Host, l: Ledger, op: Op)
    requires Exact(l) && Succeeds(op) && !op.OutsideEdit?
    ensures Exact(Next(h, l, op).0)
  {
    hide Expire, BlockAfterSweep, Deadline;
    match op
    case TempBlock(ip, duration, sweepTime, time, luck) =>
      ExpireKeepsExact(l, sweepTime);
      BlockKeepsExact(Expire(l, sweepTime, {}), ip, duration, time);
    case ManualUnblock(ip, _) => UnblockKeepsExact(h, l, ip);
    case ExpireBlocks(now, _) => ExpireKeepsExact(l, now);
    case _ =>
  }

  /** With no failed command and no outside edit the rules are the ledger's addresses, once each; so a sweep
      leaves exactly the rules whose deadline is still ahead. */
  lemma {:induction false} FirewallIsLedger(h: Host, l: Ledger, ops: seq<Op>)
    requires Exact(l) && NoEdits(ops) && NoFailures(ops)
    ensures Exact(RunFrom(h, l, ops))
  {
    if ops != [] {
      hide Next, Exact, Succeeds;
      FirewallIsLedger(h, l, ops[..|ops| - 1]);
      NextKeepsExact(h, RunFrom(h, l, ops[..|ops| - 1]), ops[|ops| - 1]);
    }
  }

  /** A block attempt after the sweep makes an orphan in one way only: the address still has its entry, is past
      the cooldown, and neither of the two existence checks ran, so that a second copy is added. It adopts an
      orphan when it opens an entry for an address that already had a rule. */
  lemma BlockOrphans(l: Ledger, ip: string, duration: int, time: real, luck: Luck, x: string)
    requires KeysAreRules(l)
    ensures var (after, reply) := BlockAfterSweep(l, ip, duration, time, luck);
            Spare(after, x) == Spare(l, x)
              + (if x == ip && reply.status == Blocked && ip in l.until then 1 else 0)
              - (if x == ip && reply.status == AlreadyBlocked && ip !in l.until then 1 else 0)
    ensures BlockAfterSweep(l, ip, duration, time, luck).1.status == Blocked && ip in l.until ==>
              !luck.checkRuns && !luck.recheckRuns && luck.addRuns
  {
    hide Deadline;
  }

  // ----- Runs that do not name an address

  ghost predicate Quiet(ops: seq<Op>, ip: string) {
    forall i :: 0 <= i < |ops| ==> !Names(ops[i], ip)
  }

  predicate Names(op: Op, ip: string) {
    match op
    case TempBlock(other, _, _, _, _) => other == ip
    case ManualUnblock(other, _) => other == ip
    case _ => false
  }

  /** `op` runs a sweep that takes an entry with deadline `until`. */
  predicate Sweeps(h: Host, op: Op, until: real) {
    match op
    case TempBlock(ip, _, sweepTime, _, _) => h.hasFirewall && h.routable(ip) && sweepTime >= until
    case ExpireBlocks(now, _) => h.hasFirewall && now >= until
    case _ => false
  }

  ghost predicate NeverSwept(h: Host, ops: seq<Op>, until: real) {
    forall i :: 0 <= i < |ops| ==> !Sweeps(h, ops[i], until)
  }

  /** The entry of `ip` in both maps, if any. */
  datatype Entry = Absent | Entry(until: real, lastBlock: real)

  function EntryOf(l: Ledger, ip: string): Entry {
    if ip in l.until && ip in l.lastBlock then Entry(l.until[ip], l.lastBlock[ip]) else Absent
  }

  lemma QuietSweep(l: Ledger, now: real, failed: set<string>, ip: string)
    requires KeysCoincide(l)
    ensures KeysCoincide(Expire(l, now, failed))
    ensures EntryOf(Expire(l, now, failed), ip)
         == if EntryOf(l, ip).Entry? && now >= EntryOf(l, ip).until then Absent else EntryOf(l, ip)
  {
  }

  lemma QuietBlock(l: Ledger, other: string, duration: int, time: real, luck: Luck, ip: string)
    requires other != ip
    ensures EntryOf(BlockAfterSweep(l, other, duration, time, luck).0, ip) == EntryOf(l, ip)
  {
  }

  lemma QuietStep(h: Host, l: Ledger, op: Op, ip: string)
    requires KeysCoincide(l) && !Names(op, ip)
    ensures EntryOf(Next(h, l, op).0, ip)
         == if EntryOf(l, ip).Entry? && Sweeps(h, op, EntryOf(l, ip).until) then Absent else EntryOf(l, ip)
  {
    hide Expire, BlockAfterSweep, KeysCoincide;
    match op
    case TempBlock(other, duration, sweepTime, time, luck) =>
      QuietSweep(l, sweepTime, luck.failedDeletes, ip);
      QuietBlock(Expire(l, sweepTime, luck.failedDeletes), other, duration, time, luck, ip);
    case ExpireBlocks(now, failed) => QuietSweep(l, now, failed, ip);
    case _ =>
  }

  lemma NeverSweptSnoc(h: Host, ops: seq<Op>, until: real)
    requires ops != []
    ensures NeverSwept(h, ops, until) <==> NeverSwept(h, ops[..|ops| - 1], until) && !Sweeps(h, ops[|ops| - 1], until)
  {
    hide Sweeps;
  }

  lemma PresentHasEntry(l: Ledger, ip: string)
    requires KeysCoincide(l) && ip in l.until
    ensures EntryOf(l, ip).Entry? && EntryOf(l, ip).until == l.until[ip]
  {
  }

  /** A block stands until its deadline and not beyond: while no operation names the address, its entry stays
      unchanged if no sweep ran at or after the deadline, and is gone if one did. */
  lemma {:induction false} EntryStandsUntilSwept(h: Host, l: Ledger, ops: seq<Op>, ip: string)
    requires KeysCoincide(l) && ip in l.until && Quiet(ops, ip)
    ensures EntryOf(RunFrom(h, l, ops), ip) == if NeverSwept(h, ops, l.until[ip]) then EntryOf(l, ip) else Absent
  {
    if ops != [] {
      hide Next, Names, Sweeps, EntryOf, KeysCoincide, NeverSwept;
      PresentHasEntry(l, ip);
      var rest, before := ops[..|ops| - 1], RunFrom(h, l, ops[..|ops| - 1]);
      EntryStandsUntilSwept(h, l, rest, ip);
      LedgerWithinFirewall(h, l, rest);
      QuietStep(h, before, ops[|ops| - 1], ip);
      NeverSweptSnoc(h, ops, l.until[ip]);
    }
  }

  /** The cooldown lasts sixty seconds or until the entry is swept, whichever comes first: a later attempt on
      the same address is refused exactly then. */
  lemma CooldownIff(h: Host, l: Ledger, ops: seq<Op>, again: Op)
    requires again.TempBlock? && h.hasFirewall && h.routable(again.ip)
    requires KeysCoincide(l) && again.ip in l.until && Quiet(ops, again.ip)
    ensures Next(h, RunFrom(h, l, ops), again).1.status == CooldownActive <==>
              NeverSwept(h, ops + [again], l.until[again.ip]) && again.time - l.lastBlock[again.ip] < 60.0
  {
    EntryStandsUntilSwept(h, l, ops, again.ip);
    LedgerWithinFirewall(h, l, ops);
    assert (ops + [again])[|ops|] == again;
    assert forall i :: 0 <= i < |ops| ==> (ops + [again])[i] == ops[i];
    assert NeverSwept(h, ops + [again], l.until[again.ip]) <==>
           NeverSwept(h, ops, l.until[again.ip]) && !Sweeps(h, again, l.until[again.ip]);
    hide RunFrom, NeverSwept, Quiet;
    RefusedIff(h, RunFrom(h, l, ops), again);
  }

  lemma RefusedIff(h: Host, l: Ledger, again: Op)
    requires again.TempBlock? && h.hasFirewall && h.routable(again.ip) && KeysCoincide(l)
    ensures Next(h, l, again).1.status == CooldownActive <==>
              var entry := EntryOf(l, again.ip);
              entry.Entry? && again.sweepTime < entry.until && again.time - entry.lastBlock < 60.0
  {
  }

  lemma QuietOrphan(h: Host, l: Ledger, op: Op, ip: string)
    requires KeysAreRules(l) && !Names(op, ip) && !op.OutsideEdit?
    ensures Spare(Next(h, l, op).0, ip) >= Spare(l, ip)
  {
    if op.TempBlock? {
      ExpireOrphans(l, op.sweepTime, op.luck.failedDeletes, ip);
      hide Expire;
    } else if op.ExpireBlocks? {
      ExpireOrphans(l, op.now, op.failedDeletes, ip);
      hide Expire;
    }
  }

  /** An orphan rule is never removed by any sweep: without an operation that names the address, or an
      outside edit, the firewall keeps at least as many spare copies as before. */
  lemma {:induction false} OrphansStay(h: Host, l: Ledger, ops: seq<Op>, ip: string)
    requires KeysCoincide(l) && KeysAreRules(l) && Quiet(ops, ip) && NoEdits(ops)
    ensures Spare(RunFrom(h, l, ops), ip) >= Spare(l, ip)
  {
    if ops != [] {
      hide Next, Names, Spare, KeysAreRules;
      OrphansStay(h, l, ops[..|ops| - 1], ip);
      LedgerWithinFirewall(h, l, ops[..|ops| - 1]);
      QuietOrphan(h, RunFrom(h, l, ops[..|ops| - 1]), ops[|ops| - 1], ip);
    }
  }

  /** A successful block leaves a rule, and an entry that ends after the requested seconds. */
  lemma BlockSetsEntry(h: Host, l: Ledger, ip: string, duration: int, sweepTime: real, time: real, luck: Luck)
    requires KeysAreRules(l) && Next(h, l, TempBlock(ip, duration, sweepTime, time, luck)).1.ok
    ensures var after := Next(h, l, TempBlock(ip, duration, sweepTime, time, luck)).0;
            && ip in after.rules && ip in after.until && ip in after.lastBlock
            && after.until[ip] == (if duration >= 1 then time + duration as real else time + 1.0)
            && after.lastBlock[ip] == time
  {
    ExpireKeepsRules(l, sweepTime, luck.failedDeletes);
    hide Expire;
  }

  /** After a successful block of `duration` seconds, and whatever else fails, the rule is in the firewall and the
      address is reported as blocked at every moment before its end, unless an operation names it. */
  lemma BlockIsEffective(h: Host, l: Ledger, block: Op, ops: seq<Op>, now: real, checkRuns: bool)
    requires KeysCoincide(l) && KeysAreRules(l) && NoEdits(ops)
    requires block.TempBlock? && Next(h, l, block).1.ok && Quiet(ops, block.ip)
    requires var end := if block.duration >= 1 then block.time + block.duration as real else block.time + 1.0;
             NeverSwept(h, ops, end) && now < end
    ensures block.ip in RunFrom(h, Next(h, l, block).0, ops).rules
    ensures IsCurrentlyBlocked(h, RunFrom(h, Next(h, l, block).0, ops), block.ip, now, checkRuns)
  {
    hide RunFrom, NeverSwept, Quiet, KeysCoincide, KeysAreRules, NoEdits, Next;
    var blocked := Next(h, l, block).0;
    NextKeepsKeys(h, l, block);
    NextKeepsRules(h, l, block);
    BlockSetsEntry(h, l, block.ip, block.duration, block.sweepTime, block.time, block.luck);
    EntryStandsUntilSwept(h, blocked, ops, block.ip);
    LedgerWithinFirewall(h, blocked, ops);
    PresentHasEntry(blocked, block.ip);
    EntryHasRule(RunFrom(h, blocked, ops), block.ip);
  }

  /** And not beyond: the first sweep at or after that end, if its delete works, takes the entry and, where the
      rules are the ledger's, the rule. */
  lemma BlockEnds(h: Host, l: Ledger, block: Op, ops: seq<Op>, now: real)
    requires h.hasFirewall && Exact(l) && KeysCoincide(l) && NoEdits(ops) && NoFailures(ops) && Succeeds(block)
    requires block.TempBlock? && Next(h, l, block).1.ok && Quiet(ops, block.ip)
    requires now >= if block.duration >= 1 then block.time + block.duration as real else block.time + 1.0
    ensures var after := Next(h, RunFrom(h, Next(h, l, block).0, ops), ExpireBlocks(now, {})).0;
            block.ip !in after.until && block.ip !in after.rules
  {
    hide RunFrom, NeverSwept, Quiet, KeysCoincide, NoEdits, NoFailures, Next, Exact, Succeeds;
    var blocked := Next(h, l, block).0;
    ExactKeysAreRules(l);
    BlockSetsEntry(h, l, block.ip, block.duration, block.sweepTime, block.time, block.luck);
    NextKeepsKeys(h, l, block);
    NextKeepsExact(h, l, block);
    FirewallIsLedger(h, blocked, ops);
    LedgerWithinFirewall(h, blocked, ops);
    EntryStandsUntilSwept(h, blocked, ops, block.ip);
    PresentHasEntry(blocked, block.ip);
    SweptAway(h, RunFrom(h, blocked, ops), block.ip, now);
  }

  lemma ExactKeysAreRules(l: Ledger)
    requires Exact(l)
    ensures KeysAreRules(l)
  {
  }

  lemma SweptAway(h: Host, l: Ledger, ip: string, now: real)
    requires h.hasFirewall && Exact(l) && KeysCoincide(l)
    requires EntryOf(l, ip).Entry? ==> EntryOf(l, ip).until <= now
    ensures var after := Next(h, l, ExpireBlocks(now, {})).0;
            ip !in after.until && ip !in after.rules
  {
    ExpireKeepsExact(l, now);
    assert ip in l.until ==> EntryOf(l, ip).Entry?;
  }

  /** After a successful block at `block.time`, a further attempt on the address is refused for cooldown if and
      only if no sweep has reached the block's end and less than sixty seconds have passed. */
  lemma CooldownAfterBlockIff(h: Host, l: Ledger, block: Op, ops: seq<Op>, again: Op)
    requires again.TempBlock? && block.TempBlock? && again.ip == block.ip && h.hasFirewall && h.routable(block.ip)
    requires KeysCoincide(l) && KeysAreRules(l) && Next(h, l, block).1.ok && Quiet(ops, block.ip)
    ensures var end := if block.duration >= 1 then block.time + block.duration as real else block.time + 1.0;
            Next(h, RunFrom(h, Next(h, l, block).0, ops), again).1.status == CooldownActive <==>
              NeverSwept(h, ops + [again], end) && again.time - block.time < 60.0
  {
    hide RunFrom, NeverSwept, Quiet, KeysCoincide, KeysAreRules, Next;
    NextKeepsKeys(h, l, block);
    BlockSetsEntry(h, l, block.ip, block.duration, block.sweepTime, block.time, block.luck);
    CooldownIff(h, Next(h, l, block).0, ops, again);
  }

  // ----- What each operation does

  /** A host without firewall, or an address that is not routable, refuses every block and unblock. */
  lemma Refusals(h: Host, l: Ledger, op: Op)
    requires (op.TempBlock? || op.ManualUnblock?) && (!h.hasFirewall || !h.routable(op.ip))
    ensures Next(h, l, op) == (l, Reply(false, if !h.hasFirewall then UnsupportedPlatform else InvalidIp))
  {
  }

  /** A block succeeds if and only if, after the sweep, no cooldown runs and a check finds a rule or the add works. */
  lemma BlockSucceedsIff(h: Host, l: Ledger, ip: string, duration: int, sweepTime: real, time: real, luck: Luck)
    requires h.hasFirewall && h.routable(ip)
    ensures var swept, reply := Expire(l, sweepTime, luck.failedDeletes), Next(h, l, TempBlock(ip, duration, sweepTime, time, luck)).1;
            && (reply.ok <==> !(ip in swept.lastBlock && time - swept.lastBlock[ip] < 60.0)
                              && ((ip in swept.rules && (luck.checkRuns || luck.recheckRuns)) || luck.addRuns))
            && (!reply.ok ==> Next(h, l, TempBlock(ip, duration, sweepTime, time, luck)).0 == swept)
  {
    hide Expire;
  }

  /** An unblock succeeds if and only if the delete works and there is a rule; then one copy of it and both
      entries of the address go, and nothing else changes. */
  lemma UnblockActs(h: Host, l: Ledger, ip: string, deleteRuns: bool)
    requires h.hasFirewall && h.routable(ip)
    ensures var (after, reply) := Next(h, l, ManualUnblock(ip, deleteRuns));
            && (reply.ok <==> deleteRuns && ip in l.rules)
            && (!reply.ok ==> after == l)
            && (reply.ok ==>
                  && after.rules + multiset{ip} == l.rules
                  && ip !in after.until && ip !in after.lastBlock
                  && (forall x :: x != ip ==> (x in after.until <==> x in l.until) && (x in after.lastBlock <==> x in l.lastBlock))
                  && (forall x :: x != ip && x in l.until ==> after.until[x] == l.until[x])
                  && (forall x :: x != ip && x in l.lastBlock ==> after.lastBlock[x] == l.lastBlock[x])
                  && after.counts == l.counts && after.watchlist == l.watchlist)
  {
  }

  /** The watchlist gains and loses exactly the address, and nothing else changes. */
  lemma WatchlistActs(h: Host, l: Ledger, ip: string)
    ensures var (after, reply) := Next(h, l, WatchlistIp(ip));
            && (reply.ok <==> h.routable(ip)) && after.(watchlist := l.watchlist) == l
            && (forall x :: x in after.watchlist <==> x in l.watchlist || (x == ip && h.routable(ip)))
    ensures var (after, reply) := Next(h, l, UnwatchlistIp(ip));
            && (reply.ok <==> ip in l.watchlist) && after.(watchlist := l.watchlist) == l
            && (forall x :: x in after.watchlist <==> x in l.watchlist && x != ip)
  {
  }

  lemma AttemptCounts(l: Ledger, op: Op, ip: string)
    requires op.TempBlock?
    ensures var (after, reply) := BlockAfterSweep(l, op.ip, op.duration, op.time, op.luck);
            CountOf(after, ip) == CountOf(l, ip) +
              if op.ip == ip && reply.ok && !(op.luck.checkRuns && ip in l.rules) then 1 else 0
  {
    hide Deadline;
  }

  /** The block counter of an address counts the successful attempts on it that got past the first check. */
  lemma CountsBlocks(h: Host, l: Ledger, op: Op, ip: string)
    ensures CountOf(Next(h, l, op).0, ip) == CountOf(l, ip) +
              if op.TempBlock? && op.ip == ip && Next(h, l, op).1.ok
                 && !(op.luck.checkRuns && ip in Expire(l, op.sweepTime, op.luck.failedDeletes).rules) then 1 else 0
  {
    hide BlockAfterSweep, Expired;
    if op.TempBlock? {
      AttemptCounts(Expire(l, op.sweepTime, op.luck.failedDeletes), op, ip);
    }
  }

  lemma EntryHasRule(l: Ledger, ip: string)
    requires KeysAreRules(l) && EntryOf(l, ip).Entry?
    ensures ip in l.rules && ip in l.until && l.until[ip] == EntryOf(l, ip).until
  {
  }

  // ----- The question "is it blocked now?"

  /** In every reachable state the answer yes is right, whatever has failed; the answer no is wrong exactly when
      the entry has run out but not been swept, or is an orphan's, and the firewall could not be asked. */
  lemma AnswerIsRightIff(h: Host, ops: seq<Op>, ip: string, now: real, checkRuns: bool)
    requires NoEdits(ops)
    ensures var l := RunFrom(h, EMPTY, ops);
            var answer := IsCurrentlyBlocked(h, l, ip, now, checkRuns);
            && (answer ==> ip in l.rules)
            && (answer != (ip in l.rules) <==>
                  !(h.hasFirewall && checkRuns)
                  && (Spare(l, ip) > 0 || (ip in l.until && now >= l.until[ip]))
                  && !(ip in l.until && now < l.until[ip]))
  {
    hide RunFrom;
    LedgerWithinFirewall(h, EMPTY, ops);
  }

  /** The cooldown can be cut short: a block of one second is renewed two seconds later, well within sixty,
      because the sweep has removed its entry. */
  lemma ShortBlockEndsCooldown(h: Host, ip: string)
    requires h.hasFirewall && h.routable(ip)
    ensures var blocked := Next(h, EMPTY, TempBlock(ip, 1, 0.0, 0.0, Luck({}, true, true, true))).0;
            Next(h, blocked, TempBlock(ip, 1, 2.0, 2.0, Luck({}, true, true, true))).1 == Reply(true, Blocked)
  {
    hide Expire;
    FirstBlock(ip, 1);
    var blocked := BlockAfterSweep(Expire(EMPTY, 0.0, {}), ip, 1, 0.0, Luck({}, true, true, true)).0;
    SweptClean(blocked, ip, 2.0);
  }

  lemma SweptClean(l: Ledger, ip: string, now: real)
    requires l.until.Keys == l.lastBlock.Keys == {ip} && l.until[ip] <= now && l.rules == multiset{ip}
    ensures var swept := Expire(l, now, {});
            ip !in swept.lastBlock && ip !in swept.rules
  {
    assert Expired(l, now) == {ip};
  }

  // ----- A promise that failures break

  lemma FirstBlock(ip: string, duration: int)
    ensures var l := BlockAfterSweep(Expire(EMPTY, 0.0, {}), ip, duration, 0.0, Luck({}, true, true, true)).0;
            l.until == map[ip := Deadline(0.0, duration)] && l.lastBlock == map[ip := 0.0] && l.rules == multiset{ip}
  {
    assert Expire(EMPTY, 0.0, {}) == EMPTY by {
      assert Expired(EMPTY, 0.0) == {};
    }
  }

  /** One failed delete leaves an address blocked for good although the ledger has forgotten it. */
  lemma FailedDeleteOrphans(h: Host, ip: string)
    requires h.hasFirewall && h.routable(ip)
    ensures var blocked := Next(h, EMPTY, TempBlock(ip, 300, 0.0, 0.0, Luck({}, true, true, true))).0;
            var swept := Next(h, blocked, ExpireBlocks(300.0, {ip})).0;
            var later := Next(h, swept, ExpireBlocks(301.0, {})).0;
            ip in later.rules && ip !in later.until
  {
    hide BlockAfterSweep;
    FirstBlock(ip, 300);
    var blocked := BlockAfterSweep(Expire(EMPTY, 0.0, {}), ip, 300, 0.0, Luck({}, true, true, true)).0;
    var swept := Expire(blocked, 300.0, {ip});
    assert Expired(blocked, 300.0) == {ip} && Expired(swept, 301.0) == {};
  }
}
