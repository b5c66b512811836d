/** `update_process_failure` as the loop it is, with the locks of `ProcessGroup` taken and released
    (hax/hax/handler.py, hax/hax/util.py). */
module FailureHandlers {
  import opened Fids
  import opened FailureHandling

  /** A fixed number of locks; a process uses the one its key falls on. */
  class ProcessGroup {
    const buckets: int
    var held: set<int>

    constructor (n: int)
      requires n > 0
      ensures buckets == n && held == {}
    {
      buckets := n;
      held := {};
    }

    predicate Valid()
      reads this
    {
      buckets > 0
    }

    function Bucket(f: Fid): (b: int)
      requires buckets > 0
      ensures 0 <= b < buckets
    {
      f.key % buckets
    }

    /** The lock is not reentrant: taking it twice would wait for ever. */
    method Lock(f: Fid)
      requires Valid() && Bucket(f) !in held
      modifies this
      ensures held == old(held) + {Bucket(f)}
    {
      held := held + {Bucket(f)};
    }

    /** Releasing a lock that is not held is an error. */
    method Unlock(f: Fid)
      requires Valid() && Bucket(f) in held
      modifies this
      ensures held == old(held) - {Bucket(f)}
    {
      held := held - {Bucket(f)};
    }
  }

  class ConsumerThread {
    const groups: ProcessGroup
    var kv: KV

    constructor (g: ProcessGroup, store: KV)
      ensures groups == g && kv == store
    {
      groups := g;
      kv := store;
    }

    /** `update_process_status` and `broadcast_process_state` for one process. */
    method Store(faults: Faults, i: nat, f: Fid, typ: ProcessType, h: Health, out: seq<HAState>)
      returns (out': seq<HAState>, raised: bool)
      modifies this
      ensures var v := Record(faults, i, old(kv), f, typ, h);
              && kv == v.kv && raised == v.raised
              && out' == if v.reported.Some? then out + [HAState(f, v.reported.value)] else out
    {
      out', raised := out, true;
      if faults(i, UpdateStatus).Before? {
        return;
      }
      kv := kv[f := Status(HasStopped, typ)];
      if faults(i, UpdateStatus).After? {
        return;
      }
      out' := out + [HAState(f, h)];
      raised := !faults(i, Publish).Fine?;
    }

    /** The body of the loop between lock and unlock. The lock is released on every way out but an
        exception, which leaves it to the caller. */
    method UpdateOne(cl: Cluster, faults: Faults, i: nat, f: Fid, out: seq<HAState>)
      returns (out': seq<HAState>, raised: bool)
      requires groups.Valid() && groups.held == {}
      modifies this, groups
      ensures var v := Handle(cl, faults, i, old(kv), f);
              && kv == v.kv && raised == v.raised
              && out' == if v.reported.Some? then out + [HAState(f, v.reported.value)] else out
      ensures groups.held == if raised then {groups.Bucket(f)} else {}
    {
      out', raised := out, true;
      groups.Lock(f);
      if !faults(i, CurrentStatus).Fine? {
        return;
      }
      var current := cl.health(f);
      if !Failing(current) {
        groups.Unlock(f);
        raised := false;
        return;
      }
      if !faults(i, ProcessStatus).Fine? {
        return;
      }
      if Base(f) !in kv || kv[Base(f)].typ.M0mkfs? {
        groups.Unlock(f);
        raised := false;
        return;
      }
      var remote := kv[Base(f)];
      if !faults(i, IsLocal).Fine? {
        return;
      }
      if cl.isLocal(f) {
        if remote.state != HasStopped {
          out', raised := Store(faults, i, f, remote.typ, current, out);
          if raised {
            return;
          }
        }
      } else if cl.amIRc {
        if !faults(i, NodeHealth).Fine? {
          return;
        }
        if cl.nodeHealth(f).Ok? {
          groups.Unlock(f);
          raised := false;
          return;
        }
        if remote.state != HasStopped {
          out', raised := Store(faults, i, f, remote.typ, current, out);
          if raised {
            return;
          }
        }
      }
      groups.Unlock(f);
      raised := false;
    }

    /** One attempt over the list; whatever fails, no lock stays held. */
    method UpdateProcessFailure(cl: Cluster, faults: Faults, states: seq<HAState>)
      returns (out: seq<HAState>, raised: bool)
      requires groups.Valid() && groups.held == {}
      modifies this, groups
      ensures Progress(kv, out, raised) == Attempt(cl, faults, old(kv), states)
      ensures groups.held == {}
    {
      out := [];
      var started := faults(0, SelfFid).Fine? && faults(0, AmIRc).Fine?;
      raised := !started;
      var groupFid: Option<Fid> := None;
      var i := 0;
      while i < |states| && !raised
        invariant 0 <= i <= |states|
        invariant groups.Valid()
        invariant started ==> Progress(kv, out, raised) == Scan(cl, faults, old(kv), states, i)
        invariant !started ==> raised && groupFid.None? && Progress(kv, out, raised) == Progress(old(kv), [], true)
        invariant groups.held == if raised && groupFid.Some? then {groups.Bucket(groupFid.value)} else {}
      {
        var state := states[i];
        if IsProcess(state.fid) {
          if state.fid != cl.self {
            groupFid := Some(state.fid);
            out, raised := UpdateOne(cl, faults, i, state.fid, out);
          }
        } else {
          out := out + [state];
        }
        i := i + 1;
      }
      if raised {
        if groupFid.Some? {
          groups.Unlock(groupFid.value);
        }
        RaisedStays(cl, faults, old(kv), states, i, |states|);
      }
    }
  }

  lemma {:induction false} RaisedStays(cl: Cluster, faults: Faults, kv: KV, states: seq<HAState>, i: nat, n: nat)
    requires i <= n <= |states|
    ensures Scan(cl, faults, kv, states, i).raised ==>
              Scan(cl, faults, kv, states, n) == Scan(cl, faults, kv, states, i)
    decreases n
  {
    if i < n {
      RaisedStays(cl, faults, kv, states, i, n - 1);
    }
  }
}
