/** Delivery of backend commands on values: the list of processed ids, its file, and the blocking ledger that
    commands act on. */
module Commands {
  import opened Options
  import opened Lists
  import opened BlockLedger
  import Text
  import SpillLines

  // ----- The list of processed ids

  /** What reading the file yields; list items are taken as text. */
  datatype Payload = Unreadable | ListOf(values: seq<string>) | Dict(commandIds: Option<seq<string>>) | OtherJson

  function Values(payload: Payload): seq<string> {
    match payload
    case ListOf(values) => values
    case Dict(commandIds) => commandIds.GetOr([])
    case _ => []
  }

  /** The distinct nonblank ids of a list, stripped, in order of first occurrence. */
  function Clean(values: seq<string>): seq<string> {
    if values == [] then []
    else
      var ids, id := Clean(values[..|values| - 1]), Text.Strip(values[|values| - 1]);
      if id == "" || id in ids then ids else ids + [id]
  }

  function Load(payload: Payload, max: Positive): seq<string> {
    SpillLines.Newest(Clean(Values(payload)), max)
  }

  function Add(ids: seq<string>, id: string, max: Positive): seq<string> {
    if id == "" || id in ids then ids else SpillLines.Newest(ids + [id], max)
  }

  // ----- Delivery

  /** `lower` stands for the lower-casing of the action text. */
  datatype Engine = Engine(host: Host, lower: string -> string, maxIds: Positive)

  /** A command's fields as text; a missing field is the empty text, a missing duration is None. */
  datatype Command = Command(id: string, action: string, ip: string, duration: Option<int>)

  /** The clock readings and firewall outcomes during one command. */
  datatype Environment = Environment(sweepTime: real, time: real, luck: Luck, deleteRuns: bool)

  datatype State = State(ledger: Ledger, ids: seq<string>, file: Payload)

  datatype Answer = InvalidCommand | DuplicateCommand | UnsupportedAction | Executed(reply: Reply)

  datatype Event =
    | Deliver(cmd: Command, env: Environment)
    | Local(op: Op)
    | Restart

  predicate Accepted(a: Answer) {
    a == DuplicateCommand || (a.Executed? && a.reply.ok)
  }

  function DurationOf(cmd: Command): int {
    var d := cmd.duration.GetOr(300);
    var seconds := if d == 0 then 300 else d;
    if seconds > 1 then seconds else 1
  }

  /** The ledger operation that a known action stands for. */
  function Dispatch(action: string, ip: string, duration: int, env: Environment): Option<Op> {
    match action
    case "block" => Some(TempBlock(ip, duration, env.sweepTime, env.time, env.luck))
    case "unblock" => Some(ManualUnblock(ip, env.deleteRuns))
    case "watchlist" => Some(WatchlistIp(ip))
    case "unwatchlist" => Some(UnwatchlistIp(ip))
    case _ => None
  }

  function OpOf(e: Engine, cmd: Command, env: Environment): Option<Op> {
    Dispatch(e.lower(Text.Strip(cmd.action)), Text.Strip(cmd.ip), DurationOf(cmd), env)
  }

  predicate Invalid(e: Engine, cmd: Command) {
    e.lower(Text.Strip(cmd.action)) == "" || Text.Strip(cmd.ip) == ""
  }

  function Remember(e: Engine, st: State, id: string): State {
    if id == "" || id in st.ids then st
    else var ids := Add(st.ids, id, e.maxIds); st.(ids := ids, file := Dict(Some(ids)))
  }

  function Apply(e: Engine, st: State, cmd: Command, env: Environment): (State, Answer) {
    var id := Text.Strip(cmd.id);
    if Invalid(e, cmd) then (st, InvalidCommand)
    else if id != "" && id in st.ids then (st, DuplicateCommand)
    else match OpOf(e, cmd, env)
      case None => (st, UnsupportedAction)
      case Some(op) =>
        var (ledger, reply) := Next(e.host, st.ledger, op);
        var acted := st.(ledger := ledger);
        (if reply.ok then Remember(e, acted, id) else acted, Executed(reply))
  }

  /** A restart forgets the ledger but not the firewall's rules, and reads the file again. */
  function Reboot(e: Engine, st: State): State {
    State(BlockLedger.EMPTY.(rules := st.ledger.rules), Load(st.file, e.maxIds), st.file)
  }

  function After(e: Engine, st: State, event: Event): State {
    match event
    case Deliver(cmd, env) => Apply(e, st, cmd, env).0
    case Local(op) => st.(ledger := Next(e.host, st.ledger, op).0)
    case Restart => Reboot(e, st)
  }

  function Start(e: Engine, ledger: Ledger, file: Payload): State {
    State(ledger, Load(file, e.maxIds), file)
  }

  function Run(e: Engine, st: State, events: seq<Event>): State {
    if events == [] then st else After(e, Run(e, st, events[..|events| - 1]), events[|events| - 1])
  }
}
