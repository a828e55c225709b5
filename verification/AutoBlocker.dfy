/** The blocker as an object that updates its maps and drives a firewall adapter. */
module AutoBlocker {
  import opened BlockLedger

  /** The adapter over a rule list. The flags say whether the commands it runs succeed. */
  class FirewallAdapter {
    var rules: multiset<string>

    constructor ()
      ensures rules == multiset{}
    {
      rules := multiset{};
    }

    method BlockIp(ip: string, recheckRuns: bool, addRuns: bool) returns (r: Reply)
      modifies this
      ensures r == if recheckRuns && ip in old(rules) then Reply(true, AlreadyBlocked)
                   else if addRuns then Reply(true, Blocked) else Reply(false, BlockFailed)
      ensures rules == if r.status == Blocked then old(rules) + multiset{ip} else old(rules)
    {
      var exists_ := IsBlocked(ip, recheckRuns);
      if exists_ {
        r := Reply(true, AlreadyBlocked);
      } else if addRuns {
        rules := rules + multiset{ip};
        r := Reply(true, Blocked);
      } else {
        r := Reply(false, BlockFailed);
      }
    }

    method UnblockIp(ip: string, deleteRuns: bool) returns (r: Reply)
      modifies this
      ensures r == if deleteRuns && ip in old(rules) then Reply(true, Unblocked) else Reply(false, UnblockFailed)
      ensures rules == if deleteRuns then old(rules) - multiset{ip} else old(rules)
    {
      if deleteRuns && ip in rules {
        rules := rules - multiset{ip};
        r := Reply(true, Unblocked);
      } else {
        assert ip !in rules ==> rules - multiset{ip} == rules;
        r := Reply(false, UnblockFailed);
      }
    }

    /** A check that fails to run reports no rule. */
    method IsBlocked(ip: string, checkRuns: bool) returns (blocked: bool)
      ensures blocked ==> ip in rules
      ensures checkRuns ==> (blocked <==> ip in rules)
      ensures !checkRuns ==> !blocked
    {
      blocked := checkRuns && ip in rules;
    }
  }

  class AutoBlocker {
    const firewall: FirewallAdapter?
    const routable: string -> bool
    var blockedUntil: map<string, real>
    var lastBlockTime: map<string, real>
    var blockCounts: map<string, nat>
    var watchlistedIps: set<string>

    function HostOf(): Host {
      Host(firewall != null, routable)
    }

    function View(): Ledger
      reads this, firewall
    {
      Ledger(blockedUntil, lastBlockTime, blockCounts, watchlistedIps, if firewall != null then firewall.rules else multiset{})
    }

    constructor (adapter: FirewallAdapter?, routableIp: string -> bool)
      ensures firewall == adapter && routable == routableIp
      ensures View() == EMPTY.(rules := if adapter != null then adapter.rules else multiset{})
    {
      firewall, routable := adapter, routableIp;
      blockedUntil, lastBlockTime, blockCounts, watchlistedIps := map[], map[], map[], {};
    }

    method ExpireBlocks(now: real, failedDeletes: set<string>)
      modifies this, firewall
      ensures View() == Next(HostOf(), old(View()), BlockLedger.ExpireBlocks(now, failedDeletes)).0
    {
      if firewall != null {
        SweepExpired(now, failedDeletes);
      }
    }

    /** The loop over the expired addresses. */
    method SweepExpired(now: real, failedDeletes: set<string>)
      requires firewall != null
      modifies this, firewall
      ensures View() == Expire(old(View()), now, failedDeletes)
    {
      hide Expire, Expired, ExpireOnly, WithoutEntry;
      ghost var before := View();
      var todo := set ip | ip in blockedUntil && now >= blockedUntil[ip];
      ghost var done := {};
      ExpiredIs(before, now);
      ExpireNone(before);
      while todo != {}
        invariant done !! todo && done + todo == Expired(before, now)
        invariant View() == ExpireOnly(before, done, failedDeletes)
      {
        var ip :| ip in todo;
        ExpireOneMore(before, done, failedDeletes, ip);
        SweepOne(ip, ip !in failedDeletes);
        todo, done := todo - {ip}, done + {ip};
      }
      assert done == Expired(before, now);
      ExpireAll(before, now, failedDeletes);
    }

    /** One expired address: the entry goes even if the delete fails. */
    method SweepOne(ip: string, deleteRuns: bool)
      requires firewall != null
      modifies this, firewall
      ensures View() == WithoutEntry(old(View()), ip, deleteRuns)
    {
      var reply := firewall.UnblockIp(ip, deleteRuns);
      blockedUntil, lastBlockTime := blockedUntil - {ip}, lastBlockTime - {ip};
    }

    method TempBlock(ip: string, duration: int, sweepTime: real, time: real, luck: Luck) returns (r: Reply)
      modifies this, firewall
      ensures (View(), r) == Next(HostOf(), old(View()), BlockLedger.TempBlock(ip, duration, sweepTime, time, luck))
    {
      hide Expire;
      if firewall == null {
        r := Reply(false, UnsupportedPlatform);
      } else if !routable(ip) {
        r := Reply(false, InvalidIp);
      } else {
        SweepExpired(sweepTime, luck.failedDeletes);
        r := BlockSwept(ip, duration, time, luck);
      }
    }

    /** The part of temp_block after the sweep. */
    method BlockSwept(ip: string, duration: int, time: real, luck: Luck) returns (r: Reply)
      requires firewall != null
      modifies this, firewall
      ensures (View(), r) == BlockAfterSweep(old(View()), ip, duration, time, luck)
    {
      if ip in lastBlockTime && time - lastBlockTime[ip] < COOLDOWN {
        r := Reply(false, CooldownActive);
      } else {
        var blocked := firewall.IsBlocked(ip, luck.checkRuns);
        if blocked {
          lastBlockTime := lastBlockTime[ip := time];
          blockedUntil := blockedUntil[ip := Deadline(time, duration)];
          r := Reply(true, AlreadyBlocked);
        } else {
          r := firewall.BlockIp(ip, luck.recheckRuns, luck.addRuns);
          if r.ok {
            lastBlockTime := lastBlockTime[ip := time];
            blockedUntil := blockedUntil[ip := Deadline(time, duration)];
            blockCounts := blockCounts[ip := (if ip in blockCounts then blockCounts[ip] else 0) + 1];
          }
        }
      }
    }

    method ManualUnblock(ip: string, deleteRuns: bool) returns (r: Reply)
      modifies this, firewall
      ensures (View(), r) == Next(HostOf(), old(View()), BlockLedger.ManualUnblock(ip, deleteRuns))
    {
      if firewall == null {
        r := Reply(false, UnsupportedPlatform);
      } else if !routable(ip) {
        r := Reply(false, InvalidIp);
      } else {
        r := firewall.UnblockIp(ip, deleteRuns);
        if r.ok {
          blockedUntil, lastBlockTime := blockedUntil - {ip}, lastBlockTime - {ip};
        } else {
          assert old(firewall.rules) == firewall.rules;
        }
      }
    }

    method WatchlistIp(ip: string) returns (r: Reply)
      modifies this`watchlistedIps
      ensures (View(), r) == Next(HostOf(), old(View()), BlockLedger.WatchlistIp(ip))
    {
      if !routable(ip) {
        r := Reply(false, InvalidIp);
      } else {
        watchlistedIps := watchlistedIps + {ip};
        r := Reply(true, Watchlisted);
      }
    }

    method UnwatchlistIp(ip: string) returns (r: Reply)
      modifies this`watchlistedIps
      ensures (View(), r) == Next(HostOf(), old(View()), BlockLedger.UnwatchlistIp(ip))
    {
      if ip !in watchlistedIps {
        r := Reply(false, NotWatchlisted);
      } else {
        watchlistedIps := watchlistedIps - {ip};
        r := Reply(true, Unwatchlisted);
      }
    }

    method IsCurrentlyBlocked(ip: string, now: real, checkRuns: bool) returns (blocked: bool)
      ensures blocked == BlockLedger.IsCurrentlyBlocked(HostOf(), View(), ip, now, checkRuns)
    {
      if ip in blockedUntil && now < blockedUntil[ip] {
        blocked := true;
      } else if firewall == null {
        blocked := false;
      } else {
        blocked := firewall.IsBlocked(ip, checkRuns);
      }
    }
  }

  // ----- The sweep, one address at a time

  /** The ledger when only the addresses in `done` have been swept. */
  function ExpireOnly(l: Ledger, done: set<string>, failedDeletes: set<string>): Ledger {
    l.(until := l.until - done, lastBlock := l.lastBlock - done, rules := l.rules - multiset(done - failedDeletes))
  }

  lemma ExpiredIs(l: Ledger, now: real)
    ensures Expired(l, now) == set ip | ip in l.until && now >= l.until[ip]
  {
  }

  lemma ExpireNone(l: Ledger)
    ensures forall failed :: ExpireOnly(l, {}, failed) == l
  {
    forall failed: set<string> ensures ExpireOnly(l, {}, failed) == l {
      assert l.until - {} == l.until && l.lastBlock - {} == l.lastBlock;
      assert {} - failed == {};
      assert l.rules - multiset({}) == l.rules;
    }
  }

  function WithoutEntry(l: Ledger, ip: string, deleteRuns: bool): Ledger {
    l.(until := l.until - {ip}, lastBlock := l.lastBlock - {ip},
       rules := if deleteRuns then l.rules - multiset{ip} else l.rules)
  }

  lemma ExpireOneMore(l: Ledger, done: set<string>, failed: set<string>, ip: string)
    requires ip !in done
    ensures ExpireOnly(l, done + {ip}, failed) == WithoutEntry(ExpireOnly(l, done, failed), ip, ip !in failed)
  {
    MapMinusTwice(l.until, done, ip);
    MapMinusTwice(l.lastBlock, done, ip);
    RulesMinusOneMore(l.rules, done, failed, ip);
  }

  lemma MapMinusTwice(m: map<string, real>, done: set<string>, ip: string)
    ensures m - done - {ip} == m - (done + {ip})
  {
  }

  lemma RulesMinusOneMore(rules: multiset<string>, done: set<string>, failed: set<string>, ip: string)
    requires ip !in done
    ensures var before := rules - multiset(done - failed);
            rules - multiset(done + {ip} - failed) == if ip in failed then before else before - multiset{ip}
  {
    if ip in failed {
      assert done + {ip} - failed == done - failed;
    } else {
      assert done + {ip} - failed == (done - failed) + {ip};
      assert multiset((done - failed) + {ip}) == multiset(done - failed) + multiset{ip};
    }
  }

  lemma ExpireAll(l: Ledger, now: real, failed: set<string>)
    ensures ExpireOnly(l, Expired(l, now), failed) == Expire(l, now, failed)
  {
  }
}
