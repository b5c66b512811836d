/** The planner object of hax/hax/motr/planner.py, updated in place.

    Each method is the body of one critical section, proved against the function of `Planning` that
    the run theorems are about.  Waking the sleepers is reported by a result. */
module WorkPlanners {
  import opened Fids
  import opened LinkedLists
  import opened Planning

  class WorkPlanner {
    const max: nat
    const active: LinkedList<Command>
    var currentGroupId: nat
    var nextGroupId: nat
    var activeMeta: map<nat, Fid>
    var nextGroupCommands: set<Kind>
    var isShutdown: bool
    var backlog: seq<Command>
    var asapList: seq<Command>

    ghost predicate Valid()
      reads this, active, active.spine
    {
      active.Valid()
    }

    /** The planner state this object stands for. */
    ghost function View(): Planner
      reads this, active, active.spine
    {
      Planner(currentGroupId, nextGroupId, active.Contents(), activeMeta, nextGroupCommands,
              isShutdown, backlog, asapList)
    }

    constructor (max: nat, start: nat)
      ensures Valid() && this.max == max && View() == Initial(start)
      ensures fresh(active) && fresh(active.spine)
    {
      this.max := max;
      active := new LinkedList<Command>();
      currentGroupId, nextGroupId := start, start;
      activeMeta, nextGroupCommands, isShutdown := map[], {}, false;
      backlog, asapList := [], [];
    }

    /** `_should_increase_group`: the tests in the order of the source. */
    method ShouldIncreaseGroup(kind: Kind) returns (increase: bool)
      requires Valid()
      ensures increase <==> OpensGroup(View(), kind)
    {
      if nextGroupCommands == {} { return false; }
      if kind.ProcessEvent? { return false; }
      if kind.HaNvecGetEvent? { return false; }
      if kind.HaNvecSetEvent? { return false; }
      if kind.IsEntrypoint() { return false; }
      if kind.ProcessHaEvent? { return true; }
      if kind.BroadcastHAStates? { return true; }
      if kind.IsSns() { return SnsOperation in nextGroupCommands; }
      return false;
    }

    /** `join_group` of `_assign_group`. */
    method JoinGroup(id: nat, kind: Kind, fid: Fid) returns (c: Command)
      modifies `nextGroupCommands
      ensures c == Command(id, kind, fid, nextGroupId)
      ensures nextGroupCommands == old(nextGroupCommands) + {kind}
    {
      c := Command(id, kind, fid, nextGroupId);
      nextGroupCommands := nextGroupCommands + {kind};
    }

    /** `_assign_group`. */
    method AssignGroup(id: nat, kind: Kind, fid: Fid) returns (c: Command, isAsap: bool)
      requires Valid()
      modifies `nextGroupId, `nextGroupCommands
      ensures Valid() && c == old(Submit(Cyclic(max), View(), id, kind, fid)) && isAsap == kind.IsAsap()
      ensures var p := old(View());
              View() == if isAsap then p
                        else p.(nxt := c.group, kinds := (if OpensGroup(p, kind) then {} else p.kinds) + {kind})
    {
      if kind.IsEntrypoint() || kind.HaNvecGetEvent? || kind.HaNvecSetEvent? || kind.ProcessEvent? {
        return Command(id, kind, fid, currentGroupId), true;
      } else if kind.Die? {
        c := JoinGroup(id, kind, fid);
        return c, false;
      }
      var increase := ShouldIncreaseGroup(kind);
      if increase {
        nextGroupCommands := {};
        nextGroupId := Increased(Cyclic(max), nextGroupId);
      }
      c := JoinGroup(id, kind, fid);
      isAsap := false;
    }

    /** `add_command`; the source always notifies all waiters. */
    method AddCommand(id: nat, kind: Kind, fid: Fid) returns (wake: bool)
      requires Valid()
      modifies `nextGroupId, `nextGroupCommands, `backlog, `asapList
      ensures Valid() && View() == Add(Cyclic(max), old(View()), id, kind, fid) && wake
    {
      var c, isAsap := AssignGroup(id, kind, fid);
      if isAsap {
        asapList := asapList + [c];
      } else {
        backlog := backlog + [c];
      }
      wake := true;
    }

    /** `_is_allowed_asap`: a scan of the active metadata. */
    method IsAllowedAsap(c: Command) returns (allowed: bool)
      requires Valid()
      ensures allowed <==> AllowedAsap(View(), c)
    {
      if !c.kind.ProcessEvent? { return true; }
      var keys := activeMeta.Keys;
      while keys != {}
        invariant keys <= activeMeta.Keys
        invariant forall k :: k in activeMeta && k !in keys ==> activeMeta[k] != c.fid
        decreases keys
      {
        var k :| k in keys;
        if activeMeta[k] == c.fid {
          return false;
        }
        keys := keys - {k};
      }
      return true;
    }

    /** `_add_active_cmd`. */
    method AddActiveCmd(c: Command)
      requires Valid()
      modifies `activeMeta, active
      ensures Valid() && View() == Activate(old(View()), c)
      ensures forall x :: x in active.spine ==> x in old(active.spine) || fresh(x)
    {
      active.Add(c);
      if c.kind.ProcessEvent? {
        activeMeta := activeMeta[c.id := c.fid];
      }
    }

    /** `next_cmd` of `get_next_command`; None sends the caller to sleep. */
    method NextCmd() returns (r: Option<Command>)
      requires Valid()
      modifies `activeMeta, `backlog, `asapList, active
      ensures Valid() && View() == Taken(old(View()))
      ensures r == old(if Choose(View()).Nothing? then None else Some(Chosen(View())))
      ensures forall x :: x in active.spine ==> x in old(active.spine) || fresh(x)
    {
      if isShutdown {
        return Some(Command(POISON_ID, Die, Fid(0, 0), currentGroupId));
      }
      if asapList != [] {
        var c := asapList[0];
        var allowed := IsAllowedAsap(c);
        if allowed {
          asapList := asapList[1..];
          AddActiveCmd(c);
          return Some(c);
        }
      }
      if backlog != [] {
        var c := backlog[0];
        if c.group == currentGroupId {
          backlog := backlog[1..];
          AddActiveCmd(c);
          return Some(c);
        }
      }
      return None;
    }

    /** `shutdown`. */
    method Shutdown() returns (wake: bool)
      requires Valid()
      modifies `isShutdown
      ensures Valid() && View() == old(View()).(shutdown := true) && wake
    {
      isShutdown := true;
      wake := true;
    }

    /** `_inc_group`. */
    method IncGroup()
      requires Valid()
      modifies `currentGroupId, `nextGroupId, `nextGroupCommands
      ensures Valid() && View() == Advance(Cyclic(max), old(View()))
    {
      var changeNextGroup := nextGroupId == currentGroupId;
      currentGroupId := Increased(Cyclic(max), currentGroupId);
      if changeNextGroup {
        nextGroupId := currentGroupId;
        nextGroupCommands := {};
      }
    }

    /** `_remove_active_cmd`. */
    method RemoveActiveCmd(c: Command)
      requires Valid()
      modifies `activeMeta, active, active.spine
      ensures Valid() && View() == Retire(old(View()), c)
      ensures forall x :: x in active.spine ==> x in old(active.spine)
    {
      var _ := active.Remove(c);
      activeMeta := activeMeta - {c.id};
    }

    /** The scan of the backlog in `notify_finished`. */
    method CurrentGroupQueued() returns (found: bool)
      ensures found <==> HasGroup(backlog, currentGroupId)
    {
      for i := 0 to |backlog|
        invariant forall j :: 0 <= j < i ==> backlog[j].group != currentGroupId
      {
        if backlog[i].group == currentGroupId {
          return true;
        }
      }
      return false;
    }

    /** `notify_finished`; `wake` tells whether the waiters are notified. */
    method NotifyFinished(c: Command) returns (wake: bool)
      requires Valid()
      modifies this, active, active.spine
      ensures Valid() && View() == Finished(Cyclic(max), old(View()), c)
      ensures wake <==> FinishWakes(old(View()), c)
      ensures forall x :: x in active.spine ==> x in old(active.spine)
    {
      RemoveActiveCmd(c);
      if active.NonEmpty() {
        return false;
      }
      var queued := CurrentGroupQueued();
      if queued {
        return false;
      }
      IncGroup();
      return true;
    }
  }
}
