/** The blocking ledger on values: timed bookkeeping beside the firewall's rules.

    A firewall command may fail. Whether each command succeeds is an argument: a failed one changes nothing
    and reports false. Rules are a multiset, because the adapter adds a second copy of a rule when its own
    existence check fails, and deletes one copy at a time. */
module BlockLedger {

  const COOLDOWN := 60.0

  /** `routable` stands for the address check; a host may lack a firewall adapter. */
  datatype Host = Host(hasFirewall: bool, routable: string -> bool)

  datatype Ledger = Ledger(
    until: map<string, real>,
    lastBlock: map<string, real>,
    counts: map<string, nat>,
    watchlist: set<string>,
    rules: multiset<string>)

  const EMPTY := Ledger(map[], map[], map[], {}, multiset{})

  datatype Status =
    | UnsupportedPlatform | InvalidIp | CooldownActive | AlreadyBlocked | Blocked | BlockFailed
    | Unblocked | UnblockFailed | Watchlisted | NotWatchlisted | Unwatchlisted | Done

  datatype Reply = Reply(ok: bool, status: Status)

  /** Which firewall commands succeed: the addresses whose delete fails, the caller's check, the adapter's
      own check and the add. */
  datatype Luck = Luck(failedDeletes: set<string>, checkRuns: bool, recheckRuns: bool, addRuns: bool)

  datatype Op =
    | TempBlock(ip: string, duration: int, sweepTime: real, time: real, luck: Luck)
    | ManualUnblock(ip: string, deleteRuns: bool)
    | ExpireBlocks(now: real, failedDeletes: set<string>)
    | WatchlistIp(ip: string)
    | UnwatchlistIp(ip: string)
    | OutsideEdit(edited: multiset<string>)

  function Expired(l: Ledger, now: real): set<string> {
    set ip | ip in l.until && now >= l.until[ip]
  }

  /** Expired entries leave the ledger whether or not the firewall could delete their rule. */
  function Expire(l: Ledger, now: real, failedDeletes: set<string>): Ledger {
    l.(until := l.until - Expired(l, now),
       lastBlock := l.lastBlock - Expired(l, now),
       rules := l.rules - multiset(Expired(l, now) - failedDeletes))
  }

  function Deadline(time: real, duration: int): real {
    time + (if duration > 1 then duration else 1) as real
  }

  function Mark(l: Ledger, ip: string, duration: int, time: real): Ledger {
    l.(lastBlock := l.lastBlock[ip := time], until := l.until[ip := Deadline(time, duration)])
  }

  function CountOf(l: Ledger, ip: string): nat {
    if ip in l.counts then l.counts[ip] else 0
  }

  /** The block attempt after the sweep of expired entries. */
  function BlockAfterSweep(l: Ledger, ip: string, duration: int, time: real, luck: Luck): (Ledger, Reply) {
    if ip in l.lastBlock && time - l.lastBlock[ip] < COOLDOWN then (l, Reply(false, CooldownActive))
    else if luck.checkRuns && ip in l.rules then (Mark(l, ip, duration, time), Reply(true, AlreadyBlocked))
    else
      var marked := Mark(l, ip, duration, time).(counts := l.counts[ip := CountOf(l, ip) + 1]);
      if luck.recheckRuns && ip in l.rules then (marked, Reply(true, AlreadyBlocked))
      else if luck.addRuns then (marked.(rules := l.rules + multiset{ip}), Reply(true, Blocked))
      else (l, Reply(false, BlockFailed))
  }

  function Next(h: Host, l: Ledger, op: Op): (Ledger, Reply) {
    match op
    case TempBlock(ip, duration, sweepTime, time, luck) =>
      if !h.hasFirewall then (l, Reply(false, UnsupportedPlatform))
      else if !h.routable(ip) then (l, Reply(false, InvalidIp))
      else BlockAfterSweep(Expire(l, sweepTime, luck.failedDeletes), ip, duration, time, luck)
    case ManualUnblock(ip, deleteRuns) =>
      if !h.hasFirewall then (l, Reply(false, UnsupportedPlatform))
      else if !h.routable(ip) then (l, Reply(false, InvalidIp))
      else if deleteRuns && ip in l.rules then
        (l.(until := l.until - {ip}, lastBlock := l.lastBlock - {ip}, rules := l.rules - multiset{ip}), Reply(true, Unblocked))
      else (l, Reply(false, UnblockFailed))
    case ExpireBlocks(now, failedDeletes) =>
      (if h.hasFirewall then Expire(l, now, failedDeletes) else l, Reply(true, Done))
    case WatchlistIp(ip) =>
      if !h.routable(ip) then (l, Reply(false, InvalidIp))
      else (l.(watchlist := l.watchlist + {ip}), Reply(true, Watchlisted))
    case UnwatchlistIp(ip) =>
      if ip !in l.watchlist then (l, Reply(false, NotWatchlisted))
      else (l.(watchlist := l.watchlist - {ip}), Reply(true, Unwatchlisted))
    case OutsideEdit(edited) => (l.(rules := edited), Reply(true, Done))
  }

  function IsCurrentlyBlocked(h: Host, l: Ledger, ip: string, now: real, checkRuns: bool): bool {
    if ip in l.until && now < l.until[ip] then true
    else h.hasFirewall && checkRuns && ip in l.rules
  }

  function RunFrom(h: Host, l: Ledger, ops: seq<Op>): Ledger {
    if ops == [] then l else Next(h, RunFrom(h, l, ops[..|ops| - 1]), ops[|ops| - 1]).0
  }
}
