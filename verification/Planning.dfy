/** The planner's decisions (hax/hax/motr/planner.py) as functions on values.

    Every critical section of the source is one function from planner state to planner state.  The
    way a group number is advanced is a parameter: `Cyclic(max)` is what the source does, and
    `Unbounded` is the idealised planner it is compared with. */
module Planning {
  import opened Fids
  import opened LinkedLists

  /** The message classes of hax/hax/message.py. */
  datatype Kind =
    | BaseMessage | Die | StobIoqError
    | AnyEntrypointRequest | EntrypointRequest | FirstEntrypointRequest
    | ProcessEvent | ProcessHaEvent | BroadcastHAStates | HaNvecGetEvent | HaNvecSetEvent
    | SnsOperation | SnsRebalanceStart | SnsRebalanceStop | SnsRebalancePause | SnsRebalanceResume
    | SnsRepairStart | SnsRepairStop | SnsRepairPause | SnsRepairResume
    | SnsDiskAttach | SnsDiskDetach | SnsRepairStatus | SnsRebalanceStatus
  {
    predicate IsEntrypoint() {
      AnyEntrypointRequest? || EntrypointRequest? || FirstEntrypointRequest?
    }

    /** SnsOperation and its subclasses. */
    predicate IsSns() {
      || SnsOperation? || SnsRebalanceStart? || SnsRebalanceStop? || SnsRebalancePause?
      || SnsRebalanceResume? || SnsRepairStart? || SnsRepairStop? || SnsRepairPause?
      || SnsRepairResume? || SnsDiskAttach? || SnsDiskDetach? || SnsRepairStatus?
      || SnsRebalanceStatus?
    }

    /** Commands queued out of order. */
    predicate IsAsap() {
      IsEntrypoint() || HaNvecGetEvent? || HaNvecSetEvent? || ProcessEvent?
    }

    /** Commands that never share a group with an earlier command. */
    predicate IsExclusive() {
      BroadcastHAStates? || ProcessHaEvent?
    }
  }

  /** `id` is the identity of the message object; `fid` is the event's fid, read only for a
      ProcessEvent. */
  datatype Command = Command(id: nat, kind: Kind, fid: Fid, group: nat)

  /** Poison pills are never entered in the active list, so they share one identity that no
      submitted message has. */
  const POISON_ID: nat := 0

  const MAX_GROUP_ID: nat := 100000

  datatype GroupIds = Unbounded | Cyclic(max: nat)

  /** `_get_increased_group`. */
  function Increased(ids: GroupIds, g: nat): nat {
    match ids
    case Unbounded => g + 1
    case Cyclic(max) => if g + 1 > max then 0 else g + 1
  }

  datatype Planner = Planner(
    cur: nat, nxt: nat, active: seq<Command>, meta: map<nat, Fid>, kinds: set<Kind>,
    shutdown: bool, backlog: seq<Command>, asap: seq<Command>)

  function Initial(g: nat): Planner {
    Planner(g, g, [], map[], {}, false, [], [])
  }

  // ---------------------------------------------------------------- add_command

  /** `_should_increase_group`. */
  predicate OpensGroup(p: Planner, kind: Kind) {
    if p.kinds == {} then false
    else if kind.IsAsap() then false
    else if kind.IsExclusive() then true
    else if kind.IsSns() then SnsOperation in p.kinds
    else false
  }

  /** The group `_assign_group` writes into a command. */
  function GroupFor(ids: GroupIds, p: Planner, kind: Kind): nat {
    if kind.IsAsap() then p.cur
    else if OpensGroup(p, kind) then Increased(ids, p.nxt)
    else p.nxt
  }

  function Submit(ids: GroupIds, p: Planner, id: nat, kind: Kind, fid: Fid): Command {
    Command(id, kind, fid, GroupFor(ids, p, kind))
  }

  function Add(ids: GroupIds, p: Planner, id: nat, kind: Kind, fid: Fid): Planner {
    var c := Submit(ids, p, id, kind, fid);
    if kind.IsAsap() then p.(asap := p.asap + [c])
    else p.(nxt := c.group,
            kinds := (if OpensGroup(p, kind) then {} else p.kinds) + {kind},
            backlog := p.backlog + [c])
  }

  // ---------------------------------------------------------------- get_next_command

  /** `_is_allowed_asap`. */
  predicate AllowedAsap(p: Planner, c: Command) {
    c.kind.ProcessEvent? ==> c.fid !in p.meta.Values
  }

  datatype Choice = Nothing | Poison | FromAsap | FromBacklog

  /** Which command, if any, `next_cmd` hands out. */
  function Choose(p: Planner): Choice {
    if p.shutdown then Poison
    else if p.asap != [] && AllowedAsap(p, p.asap[0]) then FromAsap
    else if p.backlog != [] && p.backlog[0].group == p.cur then FromBacklog
    else Nothing
  }

  function Chosen(p: Planner): Command
    requires !Choose(p).Nothing?
  {
    match Choose(p)
    case Poison => Command(POISON_ID, Die, Fid(0, 0), p.cur)
    case FromAsap => p.asap[0]
    case FromBacklog => p.backlog[0]
  }

  /** `_add_active_cmd`. */
  function Activate(p: Planner, c: Command): Planner {
    p.(active := [c] + p.active,
       meta := if c.kind.ProcessEvent? then p.meta[c.id := c.fid] else p.meta)
  }

  /** The planner after `next_cmd`. */
  function Taken(p: Planner): Planner {
    match Choose(p)
    case Nothing => p
    case Poison => p
    case FromAsap => Activate(p.(asap := p.asap[1..]), p.asap[0])
    case FromBacklog => Activate(p.(backlog := p.backlog[1..]), p.backlog[0])
  }

  // ---------------------------------------------------------------- notify_finished

  /** `_remove_active_cmd`. */
  function Retire(p: Planner, c: Command): Planner {
    p.(active := RemoveFirst(p.active, c), meta := p.meta - {c.id})
  }

  predicate HasGroup(cs: seq<Command>, g: nat) {
    exists i :: 0 <= i < |cs| && cs[i].group == g
  }

  /** The current group is exhausted: nothing runs and nothing queued belongs to it. */
  predicate GroupDone(p: Planner) {
    p.active == [] && !HasGroup(p.backlog, p.cur)
  }

  /** `_inc_group`. */
  function Advance(ids: GroupIds, p: Planner): Planner {
    var g := Increased(ids, p.cur);
    if p.nxt == p.cur then p.(cur := g, nxt := g, kinds := {}) else p.(cur := g)
  }

  /** The planner after `notify_finished`. */
  function Finished(ids: GroupIds, p: Planner, c: Command): Planner {
    var q := Retire(p, c);
    if GroupDone(q) then Advance(ids, q) else q
  }

  /** Whether `notify_finished` wakes the sleeping workers. */
  predicate FinishWakes(p: Planner, c: Command) {
    GroupDone(Retire(p, c))
  }
}
