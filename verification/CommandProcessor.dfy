/** The processed-command store and the command handler as objects. */
module CommandProcessor {
  import opened Options
  import opened Lists
  import opened BlockLedger
  import opened Commands
  import AutoBlocker
  import Text

  class ProcessedCommandStore {
    const maxIds: Positive
    var commandIds: seq<string>
    var file: Payload

    constructor (payload: Payload, max: Positive)
      ensures maxIds == max && file == payload && commandIds == Commands.Load(payload, max)
    {
      maxIds, file := max, payload;
      var ids := LoadIds(payload, max);
      commandIds := ids;
    }

    /** The loop of _load. */
    static method LoadIds(payload: Payload, max: Positive) returns (ids: seq<string>)
      ensures ids == Commands.Load(payload, max)
    {
      hide Text.Strip;
      var values := match payload
        case ListOf(items) => items
        case Dict(items) => items.GetOr([])
        case _ => [];
      ids := [];
      var seen: set<string> := {};
      for i := 0 to |values|
        invariant ids == Clean(values[..i])
        invariant forall id :: id in seen <==> id in ids
      {
        assert values[..i + 1][..i] == values[..i];
        var id := Text.Strip(values[i]);
        if id != "" && id !in seen {
          ids := ids + [id];
          seen := seen + {id};
        }
      }
      assert values[..|values|] == values;
      ids := if |ids| > max then ids[|ids| - max..] else ids;
    }

    method Contains(id: string) returns (found: bool)
      ensures found <==> Text.Strip(id) != "" && Text.Strip(id) in commandIds
    {
      var normalized := Text.Strip(id);
      found := normalized != "" && normalized in commandIds;
    }

    method Add(id: string)
      modifies this
      ensures commandIds == Commands.Add(old(commandIds), Text.Strip(id), maxIds)
      ensures file == if Text.Strip(id) == "" || Text.Strip(id) in old(commandIds) then old(file) else Dict(Some(commandIds))
    {
      var normalized := Text.Strip(id);
      if normalized != "" && normalized !in commandIds {
        commandIds := commandIds + [normalized];
        if |commandIds| > maxIds {
          commandIds := commandIds[|commandIds| - maxIds..];
        }
        Save();
      }
    }

    method Save()
      modifies this`file
      ensures file == Dict(Some(commandIds))
    {
      file := Dict(Some(commandIds));
    }
  }

  class CommandProcessor {
    const blocker: AutoBlocker.AutoBlocker
    const store: ProcessedCommandStore
    const lower: string -> string

    constructor (b: AutoBlocker.AutoBlocker, s: ProcessedCommandStore, lowerCase: string -> string)
      ensures blocker == b && store == s && lower == lowerCase
    {
      blocker, store, lower := b, s, lowerCase;
    }

    function EngineOf(): Engine {
      Engine(blocker.HostOf(), lower, store.maxIds)
    }

    function View(): State
      reads blocker, blocker.firewall, store
    {
      State(blocker.View(), store.commandIds, store.file)
    }

    method ApplyBackendCommand(cmd: Command, env: Environment) returns (answer: Answer)
      modifies blocker, blocker.firewall, store
      ensures (View(), answer) == Apply(EngineOf(), old(View()), cmd, env)
    {
      hide Text.Strip, Next, Commands.Add;
      var id, action, ip := Text.Strip(cmd.id), lower(Text.Strip(cmd.action)), Text.Strip(cmd.ip);
      var duplicate := store.Contains(id);
      Text.StripIdempotent(cmd.id);
      if action == "" || ip == "" {
        answer := InvalidCommand;
      } else if id != "" && duplicate {
        answer := DuplicateCommand;
      } else {
        answer := Act(action, ip, DurationOf(cmd), env);
        if answer.Executed? && answer.reply.ok && id != "" {
          store.Add(id);
        }
      }
    }

    /** The chain of action branches. */
    method Act(action: string, ip: string, duration: int, env: Environment) returns (answer: Answer)
      modifies blocker, blocker.firewall
      ensures match Dispatch(action, ip, duration, env)
              case None => answer == UnsupportedAction && blocker.View() == old(blocker.View())
              case Some(op) => answer.Executed? && (blocker.View(), answer.reply) == Next(blocker.HostOf(), old(blocker.View()), op)
    {
      hide Next;
      if action == "block" {
        var r := blocker.TempBlock(ip, duration, env.sweepTime, env.time, env.luck);
        answer := Executed(r);
      } else if action == "unblock" {
        var r := blocker.ManualUnblock(ip, env.deleteRuns);
        answer := Executed(r);
      } else if action == "watchlist" {
        var r := blocker.WatchlistIp(ip);
        answer := Executed(r);
      } else if action == "unwatchlist" {
        var r := blocker.UnwatchlistIp(ip);
        answer := Executed(r);
      } else {
        answer := UnsupportedAction;
      }
    }
  }
}
