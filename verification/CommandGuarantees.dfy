/** At-most-once execution of backend commands, over every run. */
module CommandGuarantees {
  import opened Options
  import opened BlockLedger
  import opened Commands
  import opened Lists
  import LedgerGuarantees
  import Text
  import SpillLines

  // ----- The saved list

  ghost predicate Normalized(ids: seq<string>) {
    forall i :: 0 <= i < |ids| ==> ids[i] != "" && Text.Strip(ids[i]) == ids[i]
  }

  lemma {:induction false} CleanIsProper(values: seq<string>)
    ensures Distinct(Clean(values)) && Normalized(Clean(values))
  {
    if values != [] {
      hide Text.Strip;
      CleanIsProper(values[..|values| - 1]);
      Text.StripIdempotent(values[|values| - 1]);
    }
  }

  lemma {:induction false} CleanOfProper(ids: seq<string>)
    requires Distinct(ids) && Normalized(ids)
    ensures Clean(ids) == ids
  {
    if ids != [] {
      hide Text.Strip;
      var rest, last := ids[..|ids| - 1], ids[|ids| - 1];
      CleanOfProper(rest);
      assert last !in rest;
      assert ids == rest + [last];
    }
  }

  lemma LoadIsProper(payload: Payload, max: Positive)
    ensures var ids := Load(payload, max); Distinct(ids) && Normalized(ids) && |ids| <= max
  {
    CleanIsProper(Values(payload));
  }

  /** Cleaning keeps exactly the nonblank ids, each at its first occurrence: what follows never changes what
      was kept before. */
  lemma {:induction false} CleanKeepsFirst(a: seq<string>, b: seq<string>)
    ensures Clean(a) <= Clean(a + b)
    ensures forall id :: id in Clean(a) <==> id != "" && exists i :: 0 <= i < |a| && Text.Strip(a[i]) == id
  {
    hide Text.Strip;
    CleanHas(a);
    if b == [] {
      assert a + b == a;
    } else {
      assert (a + b)[..|a + b| - 1] == a + b[..|b| - 1];
      CleanKeepsFirst(a, b[..|b| - 1]);
    }
  }

  lemma {:induction false} CleanHas(a: seq<string>)
    ensures forall id :: id in Clean(a) <==> id != "" && exists i :: 0 <= i < |a| && Text.Strip(a[i]) == id
  {
    hide Text.Strip;
    if a != [] {
      var n := |a| - 1;
      CleanHas(a[..n]);
      forall id ensures id in Clean(a) <==> id != "" && exists i :: 0 <= i < |a| && Text.Strip(a[i]) == id {
        assert id in Clean(a) <==> id in Clean(a[..n]) || (id != "" && id == Text.Strip(a[n]));
        if i :| 0 <= i < |a| && Text.Strip(a[i]) == id {
          assert i < n ==> a[..n][i] == a[i];
        }
        if i :| 0 <= i < n && Text.Strip(a[..n][i]) == id {
          assert Text.Strip(a[i]) == id;
        }
      }
    }
  }

  /** Loading a saved list gives its newest `max` ids back, the whole list if it is no longer, as an object or as
      a bare list; anything else is no list. */
  lemma LoadOfSaved(ids: seq<string>, max: Positive)
    requires Distinct(ids) && Normalized(ids)
    ensures var newest := if |ids| > max then ids[|ids| - max..] else ids;
            Load(Dict(Some(ids)), max) == newest && Load(ListOf(ids), max) == newest
    ensures Load(Unreadable, max) == Load(OtherJson, max) == Load(Dict(None), max) == []
  {
    hide Clean, Distinct, Normalized;
    CleanOfProper(ids);
    NothingToClean();
  }

  lemma NothingToClean()
    ensures Clean([]) == []
  {
  }

  lemma AddIsProper(ids: seq<string>, id: string, max: Positive)
    requires Distinct(ids) && Normalized(ids) && |ids| <= max && Text.Strip(id) == id
    ensures var added := Add(ids, id, max); Distinct(added) && Normalized(added) && |added| <= max
  {
    hide Text.Strip;
  }

  /** Memory and file agree. */
  ghost predicate InStep(e: Engine, st: State) {
    Distinct(st.ids) && Normalized(st.ids) && |st.ids| <= e.maxIds && Load(st.file, e.maxIds) == st.ids
  }

  lemma StartsInStep(e: Engine, ledger: Ledger, file: Payload)
    ensures InStep(e, Start(e, ledger, file))
  {
    LoadIsProper(file, e.maxIds);
  }

  lemma RememberInStep(e: Engine, st: State, id: string)
    requires InStep(e, st) && Text.Strip(id) == id
    ensures InStep(e, Remember(e, st, id))
  {
    hide Load, Add, Distinct, Normalized, Text.Strip;
    if !(id == "" || id in st.ids) {
      AddIsProper(st.ids, id, e.maxIds);
      LoadOfSaved(Add(st.ids, id, e.maxIds), e.maxIds);
    }
  }

  lemma AfterInStep(e: Engine, st: State, event: Event)
    requires InStep(e, st)
    ensures InStep(e, After(e, st, event))
  {
    hide Next, Load, Distinct, Normalized, OpOf, Text.Strip, Remember;
    if event.Deliver? {
      Text.StripIdempotent(event.cmd.id);
      var id, op := Text.Strip(event.cmd.id), OpOf(e, event.cmd, event.env);
      if op.Some? {
        RememberInStep(e, st.(ledger := Next(e.host, st.ledger, op.value).0), id);
      }
    }
  }

  /** A restart between operations never changes the list of processed ids, whatever the file held at first. */
  lemma {:induction false} RestartUnobservable(e: Engine, ledger: Ledger, file: Payload, events: seq<Event>)
    ensures var st := Run(e, Start(e, ledger, file), events);
            InStep(e, st) && Reboot(e, st).ids == st.ids && Reboot(e, st).file == st.file
  {
    StartsInStep(e, ledger, file);
    hide After, InStep, Start;
    if events != [] {
      RestartUnobservable(e, ledger, file, events[..|events| - 1]);
      AfterInStep(e, Run(e, Start(e, ledger, file), events[..|events| - 1]), events[|events| - 1]);
    }
    InStepReboots(e, Run(e, Start(e, ledger, file), events));
  }

  lemma InStepReboots(e: Engine, st: State)
    requires InStep(e, st)
    ensures Reboot(e, st).ids == st.ids && Reboot(e, st).file == st.file
  {
  }

  // ----- The ids that succeeded

  /** Delivering `cmd` acts on the ledger. */
  predicate Executes(e: Engine, st: State, cmd: Command, env: Environment) {
    Apply(e, st, cmd, env).1.Executed?
  }

  /** The id recorded by one event: that of a command that was executed with success and has a nonblank id. */
  function Recorded(e: Engine, st: State, event: Event): seq<string> {
    if event.Deliver? && Text.Strip(event.cmd.id) != "" && Executes(e, st, event.cmd, event.env)
       && Apply(e, st, event.cmd, event.env).1.reply.ok
    then [Text.Strip(event.cmd.id)]
    else []
  }

  /** All ids that succeeded, in order, with repeats; the ids found in the file at the start come first. */
  function Succeeded(e: Engine, st: State, events: seq<Event>): seq<string> {
    if events == [] then st.ids
    else
      var rest := events[..|events| - 1];
      Succeeded(e, st, rest) + Recorded(e, Run(e, st, rest), events[|events| - 1])
  }

  lemma AfterRecords(e: Engine, st: State, event: Event)
    requires InStep(e, st)
    ensures After(e, st, event).ids
         == if Recorded(e, st, event) == [] then st.ids else SpillLines.Newest(st.ids + Recorded(e, st, event), e.maxIds)
  {
    hide Next, Load, Distinct, Normalized, OpOf, Text.Strip;
  }

  lemma NewestTwice(log: seq<string>, id: string, max: Positive)
    ensures SpillLines.Newest(SpillLines.Newest(log, max) + [id], max) == SpillLines.Newest(log + [id], max)
  {
  }

  /** The remembered ids are exactly the newest of those that succeeded. */
  lemma {:induction false} RemembersNewest(e: Engine, st: State, events: seq<Event>)
    requires InStep(e, st)
    ensures InStep(e, Run(e, st, events))
    ensures Run(e, st, events).ids == SpillLines.Newest(Succeeded(e, st, events), e.maxIds)
  {
    if events != [] {
      hide After, Recorded, Succeeded, SpillLines.Newest;
      var rest, event := events[..|events| - 1], events[|events| - 1];
      RemembersNewest(e, st, rest);
      hide InStep;
      AfterInStep(e, Run(e, st, rest), event);
      AfterRecords(e, Run(e, st, rest), event);
      var recorded, log := Recorded(e, Run(e, st, rest), event), Succeeded(e, st, rest);
      SucceededGrows(e, st, events);
      if recorded != [] {
        NewestTwice(log, recorded[0], e.maxIds);
        assert recorded == [recorded[0]];
      } else {
        assert log + recorded == log;
      }
    }
  }

  lemma SucceededGrows(e: Engine, st: State, events: seq<Event>)
    requires events != []
    ensures var rest := events[..|events| - 1];
            Succeeded(e, st, events) == Succeeded(e, st, rest) + Recorded(e, Run(e, st, rest), events[|events| - 1])
    ensures var rest := events[..|events| - 1]; |Recorded(e, Run(e, st, rest), events[|events| - 1])| <= 1
  {
    hide Run, Executes, Apply, Text.Strip;
  }

  // ----- At most once

  /** The part of a log after the last occurrence of `id`. */
  function Since(log: seq<string>, id: string): seq<string> {
    if log == [] || log[|log| - 1] == id then [] else Since(log[..|log| - 1], id) + [log[|log| - 1]]
  }

  lemma {:induction false} SinceIsTail(log: seq<string>, id: string)
    ensures var tail := Since(log, id);
            && |tail| <= |log| && tail == log[|log| - |tail|..] && id !in tail
            && (id in log ==> |tail| < |log| && log[|log| - |tail| - 1] == id)
  {
    if log != [] && log[|log| - 1] != id {
      SinceIsTail(log[..|log| - 1], id);
    }
  }

  /** An id of the log is among the newest `max` exactly if fewer than `max` distinct ids came after it. */
  lemma ForgottenIff(log: seq<string>, id: string, max: Positive)
    requires id in log && Distinct(SpillLines.Newest(log, max))
    ensures id !in SpillLines.Newest(log, max) <==> |SetOf(Since(log, id))| >= max
  {
    hide SetOf, Since, Distinct;
    var newest, tail := SpillLines.Newest(log, max), Since(log, id);
    SinceIsTail(log, id);
    DistinctCount(tail);
    if |tail| >= max {
      NewestBelow(newest, tail, max);
    } else {
      assert newest[|newest| - |tail| - 1] == log[|log| - |tail| - 1];
    }
  }

  lemma NewestBelow(newest: seq<string>, tail: seq<string>, max: Positive)
    requires |newest| == max <= |tail| && newest == tail[|tail| - max..] && Distinct(newest)
    ensures |SetOf(tail)| >= max && forall id :: id !in tail ==> id !in newest
  {
    hide Distinct;
    DistinctCount(newest);
    assert forall id :: id in newest ==> id in tail;
    SubsetCount(SetOf(newest), SetOf(tail));
  }

  /** A deliverable command: it is well formed and asks for a known action. */
  predicate Deliverable(e: Engine, cmd: Command, env: Environment) {
    !Invalid(e, cmd) && OpOf(e, cmd, env).Some?
  }

  lemma ExecutesIff(e: Engine, st: State, cmd: Command, env: Environment)
    ensures Executes(e, st, cmd, env) <==>
              Deliverable(e, cmd, env) && (Text.Strip(cmd.id) == "" || Text.Strip(cmd.id) !in st.ids)
  {
    hide Next, OpOf, Text.Strip, Remember;
  }

  /** After any deliveries, duplicates, failures, local operations and restarts, a command whose id has
      succeeded before acts again if and only if at least `maxIds` distinct other ids succeeded since. */
  lemma AtMostOnce(e: Engine, ledger: Ledger, file: Payload, events: seq<Event>, cmd: Command, env: Environment)
    requires Deliverable(e, cmd, env) && Text.Strip(cmd.id) != ""
    requires Text.Strip(cmd.id) in Succeeded(e, Start(e, ledger, file), events)
    ensures var since := Since(Succeeded(e, Start(e, ledger, file), events), Text.Strip(cmd.id));
            && (Executes(e, Run(e, Start(e, ledger, file), events), cmd, env) <==> |SetOf(since)| >= e.maxIds)
            && Text.Strip(cmd.id) !in since
  {
    hide Deliverable, Text.Strip, Succeeded, Run, Start, SetOf, Since, SpillLines.Newest;
    var start, id := Start(e, ledger, file), Text.Strip(cmd.id);
    var st, log := Run(e, start, events), Succeeded(e, start, events);
    StartsInStep(e, ledger, file);
    RemembersNewest(e, start, events);
    ExecutesIff(e, st, cmd, env);
    hide Executes;
    ForgottenIff(log, id, e.maxIds);
    SinceIsTail(log, id);
  }

  /** A command that is not executed changes nothing: neither ledger nor firewall nor list nor file. */
  lemma OnlyExecutionActs(e: Engine, st: State, cmd: Command, env: Environment)
    ensures !Executes(e, st, cmd, env) ==> Apply(e, st, cmd, env).0 == st
    ensures Executes(e, st, cmd, env) ==>
              (Apply(e, st, cmd, env).0.ledger, Apply(e, st, cmd, env).1.reply)
              == Next(e.host, st.ledger, OpOf(e, cmd, env).value)
  {
    hide Next, OpOf, Text.Strip, Load;
  }

  // ----- What a command does

  /** The seconds that a command asks for: 300 if it names none or zero, and never less than one. */
  lemma DurationIs(cmd: Command)
    ensures DurationOf(cmd) == match cmd.duration
                               case None => 300
                               case Some(d) => if d == 0 then 300 else if d < 1 then 1 else d
  {
  }

  lemma ExecutedIs(e: Engine, st: State, cmd: Command, env: Environment, op: Op)
    requires Executes(e, st, cmd, env) && OpOf(e, cmd, env) == Some(op)
    ensures (Apply(e, st, cmd, env).0.ledger, Apply(e, st, cmd, env).1.reply) == Next(e.host, st.ledger, op)
  {
    hide OpOf, Next, Load, Text.Strip;
    OnlyExecutionActs(e, st, cmd, env);
  }

  /** An executed block that succeeds leaves a rule, and an entry that ends the requested seconds after it; one
      that fails only sweeps. */
  lemma BlockCommand(e: Engine, st: State, cmd: Command, env: Environment)
    requires Executes(e, st, cmd, env) && e.lower(Text.Strip(cmd.action)) == "block"
    requires LedgerGuarantees.KeysAreRules(st.ledger)
    ensures var after, reply, ip := Apply(e, st, cmd, env).0.ledger, Apply(e, st, cmd, env).1.reply, Text.Strip(cmd.ip);
            var seconds := match cmd.duration case None => 300 case Some(d) => if d == 0 then 300 else if d < 1 then 1 else d;
            && (reply.ok ==>
                  && ip in after.rules && ip in after.until && ip in after.lastBlock
                  && after.until[ip] == env.time + seconds as real && after.lastBlock[ip] == env.time)
            && (!reply.ok && e.host.hasFirewall && e.host.routable(ip) ==>
                  after == Expire(st.ledger, env.sweepTime, env.luck.failedDeletes))
  {
    hide Next, Load, Expire, Text.Strip, Apply, LedgerGuarantees.KeysAreRules, DurationOf;
    var ip, d := Text.Strip(cmd.ip), DurationOf(cmd);
    DurationIs(cmd);
    ExecutedIs(e, st, cmd, env, TempBlock(ip, d, env.sweepTime, env.time, env.luck));
    if Apply(e, st, cmd, env).1.reply.ok {
      LedgerGuarantees.BlockSetsEntry(e.host, st.ledger, ip, d, env.sweepTime, env.time, env.luck);
    } else if e.host.hasFirewall && e.host.routable(ip) {
      LedgerGuarantees.BlockSucceedsIff(e.host, st.ledger, ip, d, env.sweepTime, env.time, env.luck);
    }
  }

  /** An executed unblock succeeds if and only if there is a firewall, the address is routable, the delete works
      and there is a rule; then one copy of the rule and both entries go. */
  lemma UnblockCommand(e: Engine, st: State, cmd: Command, env: Environment)
    requires Executes(e, st, cmd, env) && e.lower(Text.Strip(cmd.action)) == "unblock"
    ensures var after, reply, ip := Apply(e, st, cmd, env).0.ledger, Apply(e, st, cmd, env).1.reply, Text.Strip(cmd.ip);
            && (reply.ok <==> e.host.hasFirewall && e.host.routable(ip) && env.deleteRuns && ip in st.ledger.rules)
            && (!reply.ok ==> after == st.ledger)
            && (reply.ok ==>
                  && after.rules + multiset{ip} == st.ledger.rules && ip !in after.until && ip !in after.lastBlock
                  && after.until == st.ledger.until - {ip} && after.lastBlock == st.ledger.lastBlock - {ip}
                  && after.watchlist == st.ledger.watchlist)
  {
    hide Load, Text.Strip, Apply;
    var ip := Text.Strip(cmd.ip);
    ExecutedIs(e, st, cmd, env, ManualUnblock(ip, env.deleteRuns));
    if e.host.hasFirewall && e.host.routable(ip) {
      LedgerGuarantees.UnblockActs(e.host, st.ledger, ip, env.deleteRuns);
    } else {
      LedgerGuarantees.Refusals(e.host, st.ledger, ManualUnblock(ip, env.deleteRuns));
    }
  }

  /** The two watchlist commands add and remove exactly the address, and touch nothing else of the ledger. */
  lemma WatchlistCommands(e: Engine, st: State, cmd: Command, env: Environment)
    requires Executes(e, st, cmd, env)
    ensures var action, ip := e.lower(Text.Strip(cmd.action)), Text.Strip(cmd.ip);
            var after, reply := Apply(e, st, cmd, env).0.ledger, Apply(e, st, cmd, env).1.reply;
            && (action == "watchlist" ==>
                  && (reply.ok <==> e.host.routable(ip)) && after.(watchlist := st.ledger.watchlist) == st.ledger
                  && after.watchlist == if reply.ok then st.ledger.watchlist + {ip} else st.ledger.watchlist)
            && (action == "unwatchlist" ==>
                  && (reply.ok <==> ip in st.ledger.watchlist) && after.(watchlist := st.ledger.watchlist) == st.ledger
                  && after.watchlist == st.ledger.watchlist - {ip})
  {
    hide Next, Load, Text.Strip, Apply;
    var ip, action := Text.Strip(cmd.ip), e.lower(Text.Strip(cmd.action));
    LedgerGuarantees.WatchlistActs(e.host, st.ledger, ip);
    if action == "watchlist" {
      ExecutedIs(e, st, cmd, env, WatchlistIp(ip));
    } else if action == "unwatchlist" {
      ExecutedIs(e, st, cmd, env, UnwatchlistIp(ip));
    }
  }

  /** Which commands are refused before anything happens, and how: a blank action or address, an id already
      processed, and any action text but the four. */
  lemma RefusedCommands(e: Engine, st: State, cmd: Command, env: Environment)
    ensures var action, id := e.lower(Text.Strip(cmd.action)), Text.Strip(cmd.id);
            var (after, answer) := Apply(e, st, cmd, env);
            && (action == "" || Text.Strip(cmd.ip) == "" <==> answer == InvalidCommand)
            && (action != "" && Text.Strip(cmd.ip) != "" && id != "" && id in st.ids <==> answer == DuplicateCommand)
            && (answer == UnsupportedAction <==>
                  action != "" && Text.Strip(cmd.ip) != "" && !(id != "" && id in st.ids)
                  && action !in {"block", "unblock", "watchlist", "unwatchlist"})
            && (!answer.Executed? ==> after == st)
  {
    hide Next, Load, Text.Strip, Remember;
  }

  /** A restart forgets entries, counters and the watchlist, and keeps the firewall's rules. */
  lemma RestartKeepsRules(e: Engine, st: State)
    ensures var l := Reboot(e, st).ledger;
            l.rules == st.ledger.rules && l.until == map[] && l.lastBlock == map[] && l.counts == map[] && l.watchlist == {}
  {
    hide Load;
  }

  /** Delivering a successful command a second time at once is the same as delivering it once, and is
      answered as a success. */
  lemma RedeliveryIsIdempotent(e: Engine, st: State, cmd: Command, env: Environment, env': Environment)
    requires Text.Strip(cmd.id) != "" && Accepted(Apply(e, st, cmd, env).1)
    ensures Apply(e, Apply(e, st, cmd, env).0, cmd, env') == (Apply(e, st, cmd, env).0, DuplicateCommand)
  {
    hide Next, OpOf, Text.Strip, Load;
    if Apply(e, st, cmd, env).1.Executed? {
      NewestHasLast(st.ids, Text.Strip(cmd.id), e.maxIds);
    }
  }

  lemma NewestHasLast(ids: seq<string>, id: string, max: Positive)
    ensures id in SpillLines.Newest(ids + [id], max)
  {
    var newest := SpillLines.Newest(ids + [id], max);
    assert newest[|newest| - 1] == id;
  }
}
