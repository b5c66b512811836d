/** Several threads and nodes running `update_drive_state` at the same time (hax/hax/util.py): each reads
    the device entries drive by drive, collects the writes, and then puts them one by one, unguarded. */
module DriveRaces {
  import opened Fids
  import opened DriveStates
  import opened DriveStores

  /** A collected write of one entry; `readAt` is the step at which the entry was read. */
  datatype Op = Op(at: nat, state: State, readAt: nat)

  /** One call: the drives still to be read, and the writes collected and not yet put. */
  datatype Updater = Idle | Updating(left: seq<Fid>, st: State, deviceEvent: bool, ops: seq<Op>)

  datatype System = System(entries: seq<Entry>, updaters: seq<Updater>, clock: nat)

  /** `Fail` ends a call early, by an exception or a crash. */
  datatype Label =
    | Begin(t: nat, drives: seq<Fid>, st: State, deviceEvent: bool)
    | Read(t: nat) | Put(t: nat) | End(t: nat) | Fail(t: nat)

  predicate Enabled(s: System, l: Label) {
    && l.t < |s.updaters|
    && var u := s.updaters[l.t];
       match l
       case Begin(_, _, _, _) => u.Idle?
       case Read(_) => u.Updating? && u.left != []
       case Put(_) => u.Updating? && u.left == [] && u.ops != [] && u.ops[0].at < |s.entries|
       case End(_) => u.Updating? && u.left == [] && u.ops == []
       case Fail(_) => u.Updating?
  }

  /** `get_sdev_state_update` over the first `n` entries. */
  function Prepared(dm: Drives, es: seq<Entry>, n: nat, d: Fid, st: State, deviceEvent: bool, now: nat): seq<Op>
    requires n <= |es|
  {
    if n == 0 then []
    else
      Prepared(dm, es, n - 1, d, st, deviceEvent, now) +
      if es[n-1].sdev == ToSdev(dm, d) && Takes(es[n-1], deviceEvent) then [Op(n - 1, st, now)] else []
  }

  function Step(dm: Drives, s: System, l: Label): System
    requires Enabled(s, l)
  {
    var u := s.updaters[l.t];
    match l
    case Begin(t, drives, st, dev) =>
      s.(updaters := s.updaters[t := Updating(drives, st, dev, [])], clock := s.clock + 1)
    case Read(t) =>
      var more := Prepared(dm, s.entries, |s.entries|, u.left[0], u.st, u.deviceEvent, s.clock);
      s.(updaters := s.updaters[t := u.(left := u.left[1..], ops := u.ops + more)], clock := s.clock + 1)
    case Put(t) =>
      var op := u.ops[0];
      s.(entries := s.entries[op.at := s.entries[op.at].(state := op.state)],
         updaters := s.updaters[t := u.(ops := u.ops[1..])], clock := s.clock + 1)
    case End(t) => s.(updaters := s.updaters[t := Idle], clock := s.clock + 1)
    case Fail(t) => s.(updaters := s.updaters[t := Idle], clock := s.clock + 1)
  }

  function Run(dm: Drives, s: System, ls: seq<Label>): Option<System> {
    if ls == [] then Some(s)
    else
      match Run(dm, s, ls[..|ls|-1])
      case None => None
      case Some(t) => if Enabled(t, ls[|ls|-1]) then Some(Step(dm, t, ls[|ls|-1])) else None
  }

  // ---------------------------------------------------------------- the lost update

  /** A device that is online, a process event that has read it, and a drive event that has as well. */
  function BothRead(sdev: Fid): System {
    System([Entry(sdev, Online)],
           [Updating([], Offline, false, [Op(0, Offline, 1)]), Updating([], Failed, true, [Op(0, Failed, 3)])], 4)
  }

  lemma ReadOne(dm: Drives, s: System, t: nat, d: Fid, st: State, deviceEvent: bool)
    requires t < |s.updaters| && s.updaters[t] == Updating([d], st, deviceEvent, [])
    requires |s.entries| == 1 && s.entries[0].sdev == ToSdev(dm, d) && Takes(s.entries[0], deviceEvent)
    ensures Enabled(s, Read(t))
    ensures Step(dm, s, Read(t)) == System(s.entries, s.updaters[t := Updating([], st, deviceEvent, [Op(0, st, s.clock)])],
                                           s.clock + 1)
  {
    assert Prepared(dm, s.entries, 0, d, st, deviceEvent, s.clock) == [];
    assert [d][1..] == [] && [] + [Op(0, st, s.clock)] == [Op(0, st, s.clock)];
  }

  lemma PutOne(dm: Drives, s: System, t: nat, u: Updater, op: Op, e: Entry)
    requires t < |s.updaters| && s.updaters[t] == u && u.Updating? && u.left == [] && u.ops == [op]
    requires op.at == 0 && s.entries == [e]
    ensures Enabled(s, Put(t))
    ensures Step(dm, s, Put(t)) == System([e.(state := op.state)], s.updaters[t := u.(ops := [])], s.clock + 1)
  {
    assert [op][1..] == [];
  }

  lemma ReachBothRead(drive: Fid, sdev: Fid, ls: seq<Label>)
    requires |ls| >= 4 && ls[0] == Begin(0, [drive], Offline, false) && ls[1] == Read(0)
    requires ls[2] == Begin(1, [drive], Failed, true) && ls[3] == Read(1)
    ensures Run(map[drive := sdev], System([Entry(sdev, Online)], [Idle, Idle], 0), ls[..4]) == Some(BothRead(sdev))
  {
    var dm: Drives := map[drive := sdev];
    var s := System([Entry(sdev, Online)], [Idle, Idle], 0);
    var u0, u1 := BothRead(sdev).updaters[0], BothRead(sdev).updaters[1];
    var s1 := System(s.entries, [Updating([drive], Offline, false, []), Idle], 1);
    var s2 := System(s.entries, [u0, Idle], 2);
    var s3 := System(s.entries, [u0, Updating([drive], Failed, true, [])], 3);
    ReadOne(dm, s1, 0, drive, Offline, false);
    ReadOne(dm, s3, 1, drive, Failed, true);
    assert ls[..0] == [];
    Then(dm, s, ls, 0, s, s1);
    Then(dm, s, ls, 1, s1, s2);
    Then(dm, s, ls, 2, s2, s3);
    Then(dm, s, ls, 3, s3, BothRead(sdev));
  }

  /** A process event reads a device that is online, a drive event then stores it as failed, and the
      process event stores it as offline: the failure is gone. */
  lemma FailureOverwritten(drive: Fid, sdev: Fid)
    ensures var dm: Drives := map[drive := sdev];
            var s := System([Entry(sdev, Online)], [Idle, Idle], 0);
            var ls := [Begin(0, [drive], Offline, false), Read(0), Begin(1, [drive], Failed, true), Read(1), Put(1), Put(0)];
            && Run(dm, s, ls[..5]).Some? && Run(dm, s, ls[..5]).value.entries == [Entry(sdev, Failed)]
            && Run(dm, s, ls).Some? && Run(dm, s, ls).value.entries == [Entry(sdev, Offline)]
  {
    var dm: Drives := map[drive := sdev];
    var s := System([Entry(sdev, Online)], [Idle, Idle], 0);
    var ls := [Begin(0, [drive], Offline, false), Read(0), Begin(1, [drive], Failed, true), Read(1), Put(1), Put(0)];
    ReachBothRead(drive, sdev, ls);
    var t, u0, u1 := BothRead(sdev), BothRead(sdev).updaters[0], BothRead(sdev).updaters[1];
    PutOne(dm, t, 1, u1, Op(0, Failed, 3), Entry(sdev, Online));
    var t' := Step(dm, t, Put(1));
    PutOne(dm, t', 0, u0, Op(0, Offline, 1), Entry(sdev, Failed));
    Then(dm, s, ls, 4, t, t');
    Then(dm, s, ls, 5, t', Step(dm, t', Put(0)));
    assert ls[..6] == ls;
  }

  lemma Then(dm: Drives, s: System, ls: seq<Label>, k: nat, t: System, u: System)
    requires k < |ls| && Run(dm, s, ls[..k]) == Some(t) && Enabled(t, ls[k]) && Step(dm, t, ls[k]) == u
    ensures Run(dm, s, ls[..k+1]) == Some(u)
  {
    assert ls[..k+1][..k] == ls[..k];
  }

  // ---------------------------------------------------------------- when a sticky state is kept

  /** Collected writes name entries and were read before now. */
  predicate OpsOk(s: System) {
    forall t, j :: 0 <= t < |s.updaters| && s.updaters[t].Updating? && 0 <= j < |s.updaters[t].ops| ==>
                     s.updaters[t].ops[j].at < |s.entries| && s.updaters[t].ops[j].readAt < s.clock
  }

  lemma {:induction false} PreparedOps(dm: Drives, es: seq<Entry>, n: nat, d: Fid, st: State, deviceEvent: bool, now: nat)
    requires n <= |es|
    ensures forall j :: 0 <= j < |Prepared(dm, es, n, d, st, deviceEvent, now)| ==>
                          var op := Prepared(dm, es, n, d, st, deviceEvent, now)[j];
                          op.at < n && es[op.at].sdev == ToSdev(dm, d) && Takes(es[op.at], deviceEvent) &&
                          op.state == st && op.readAt == now
  {
    if n > 0 {
      PreparedOps(dm, es, n - 1, d, st, deviceEvent, now);
    }
  }

  lemma OpsOkStep(dm: Drives, s: System, l: Label)
    requires OpsOk(s) && Enabled(s, l)
    ensures OpsOk(Step(dm, s, l)) && |Step(dm, s, l).entries| == |s.entries| && Step(dm, s, l).clock == s.clock + 1
  {
    if l.Read? {
      var u := s.updaters[l.t];
      PreparedOps(dm, s.entries, |s.entries|, u.left[0], u.st, u.deviceEvent, s.clock);
    }
  }

  /** So it is in every state reached from one where nobody is updating. */
  lemma {:induction false} RunOpsOk(dm: Drives, s: System, ls: seq<Label>)
    requires (forall t :: 0 <= t < |s.updaters| ==> s.updaters[t].Idle?) && Run(dm, s, ls).Some?
    ensures OpsOk(Run(dm, s, ls).value)
    decreases |ls|
  {
    if ls != [] {
      RunOpsOk(dm, s, ls[..|ls|-1]);
      OpsOkStep(dm, Run(dm, s, ls[..|ls|-1]).value, ls[|ls|-1]);
    }
  }

  /** The step puts entry `i`, on behalf of a drive event or of a process event. */
  predicate Puts(s: System, l: Label, i: nat, deviceEvent: bool) {
    && l.Put? && Enabled(s, l)
    && s.updaters[l.t].deviceEvent == deviceEvent && s.updaters[l.t].ops[0].at == i
  }

  /** A process event puts what it read before step `c`, and it is not `st`. */
  predicate StalePut(s: System, l: Label, i: nat, c: nat, st: State) {
    Puts(s, l, i, false) && s.updaters[l.t].ops[0].readAt < c && s.updaters[l.t].ops[0].state != st
  }

  /** The `j`-th write collected by this process event is one of entry `i`. */
  predicate Collected(u: Updater, i: nat, j: int) {
    u.Updating? && !u.deviceEvent && 0 <= j < |u.ops| && u.ops[j].at == i
  }

  /** All writes of entry `i` that process events have collected were read before step `c`. */
  ghost predicate ReadBefore(s: System, i: nat, c: nat) {
    forall t, j | 0 <= t < |s.updaters| && Collected(s.updaters[t], i, j) :: s.updaters[t].ops[j].readAt < c
  }

  /** While the entry is sticky no process event collects a write of it. */
  lemma ReadBeforeStep(dm: Drives, s: System, l: Label, i: nat, c: nat)
    requires ReadBefore(s, i, c) && Enabled(s, l) && i < |s.entries| && Sticky(s.entries[i].state)
    ensures ReadBefore(Step(dm, s, l), i, c)
  {
    if l.Read? {
      var u := s.updaters[l.t];
      PreparedOps(dm, s.entries, |s.entries|, u.left[0], u.st, u.deviceEvent, s.clock);
    }
  }

  lemma EntriesStay(dm: Drives, s: System, l: Label)
    requires Enabled(s, l)
    ensures |Step(dm, s, l).entries| == |s.entries|
    ensures forall j :: 0 <= j < |s.entries| ==> Step(dm, s, l).entries[j].sdev == s.entries[j].sdev
  {
  }

  /** A step changes entry `i` only by putting it. */
  lemma OnlyPutsChange(dm: Drives, s: System, l: Label, i: nat)
    requires Enabled(s, l) && i < |s.entries|
    ensures i < |Step(dm, s, l).entries| && Step(dm, s, l).entries[i].sdev == s.entries[i].sdev
    ensures !Puts(s, l, i, true) && !Puts(s, l, i, false) ==> Step(dm, s, l).entries[i] == s.entries[i]
    ensures Puts(s, l, i, false) ==> Step(dm, s, l).entries[i].state == s.updaters[l.t].ops[0].state
  {
  }

  /** The state after the first `k` steps. */
  function At(dm: Drives, s: System, ls: seq<Label>, k: nat): System
    requires k <= |ls|
  {
    match Run(dm, s, ls[..k]) case None => s case Some(t) => t
  }

  lemma {:induction false} Prefixes(dm: Drives, s: System, ls: seq<Label>, k: nat)
    requires k <= |ls| && Run(dm, s, ls).Some?
    ensures Run(dm, s, ls[..k]).Some?
    ensures k < |ls| ==> Enabled(At(dm, s, ls, k), ls[k]) && At(dm, s, ls, k + 1) == Step(dm, At(dm, s, ls, k), ls[k])
    decreases |ls| - k
  {
    if k == |ls| {
      assert ls[..k] == ls;
    } else {
      Prefixes(dm, s, ls, k + 1);
      assert ls[..k+1][..k] == ls[..k];
    }
  }

  /** Step `k` of the run puts entry `i`. */
  predicate PutsAt(dm: Drives, s: System, ls: seq<Label>, k: nat, i: nat, deviceEvent: bool) {
    k < |ls| && Puts(At(dm, s, ls, k), ls[k], i, deviceEvent)
  }

  predicate StaleAt(dm: Drives, s: System, ls: seq<Label>, k: nat, i: nat, c: nat, st: State) {
    k < |ls| && StalePut(At(dm, s, ls, k), ls[k], i, c, st)
  }

  /** No drive event puts entry `i` during the run. */
  ghost predicate NoDrivePut(dm: Drives, s: System, ls: seq<Label>, i: nat) {
    forall k :: !PutsAt(dm, s, ls, k, i, true)
  }

  ghost predicate NoStalePut(dm: Drives, s: System, ls: seq<Label>, i: nat, c: nat, st: State) {
    forall k :: !StaleAt(dm, s, ls, k, i, c, st)
  }

  /** After `k` steps entry `i` is `e`. */
  predicate HoldsAt(dm: Drives, s: System, ls: seq<Label>, k: nat, i: nat, e: Entry)
    requires k <= |ls|
  {
    i < |At(dm, s, ls, k).entries| && At(dm, s, ls, k).entries[i] == e
  }

  ghost predicate Kept(dm: Drives, s: System, ls: seq<Label>, i: nat, e: Entry) {
    forall k :: 0 <= k <= |ls| ==> HoldsAt(dm, s, ls, k, i, e)
  }

  lemma KeptStep(dm: Drives, u: System, l: Label, i: nat, c: nat)
    requires Enabled(u, l) && i < |u.entries| && Sticky(u.entries[i].state) && ReadBefore(u, i, c)
    requires !Puts(u, l, i, true) && !StalePut(u, l, i, c, u.entries[i].state)
    ensures var v := Step(dm, u, l); i < |v.entries| && v.entries[i] == u.entries[i] && ReadBefore(v, i, c)
  {
    ReadBeforeStep(dm, u, l, i, c);
    OnlyPutsChange(dm, u, l, i);
    if Puts(u, l, i, false) {
      assert Collected(u.updaters[l.t], i, 0);
    }
  }

  lemma {:induction false} KeptUpTo(dm: Drives, s: System, ls: seq<Label>, i: nat, k: nat)
    requires OpsOk(s) && i < |s.entries| && Sticky(s.entries[i].state) && Run(dm, s, ls).Some? && k <= |ls|
    requires NoDrivePut(dm, s, ls, i) && NoStalePut(dm, s, ls, i, s.clock, s.entries[i].state)
    ensures var u := At(dm, s, ls, k); i < |u.entries| && u.entries[i] == s.entries[i] && ReadBefore(u, i, s.clock)
  {
    if k == 0 {
      assert ls[..0] == [];
    } else {
      KeptUpTo(dm, s, ls, i, k - 1);
      Prefixes(dm, s, ls, k - 1);
      var u, l := At(dm, s, ls, k - 1), ls[k-1];
      assert !PutsAt(dm, s, ls, k - 1, i, true) && !StaleAt(dm, s, ls, k - 1, i, s.clock, s.entries[i].state);
      KeptStep(dm, u, l, i, s.clock);
    }
  }

  lemma ChangedByStale(dm: Drives, s: System, ls: seq<Label>, k: nat, i: nat, c: nat, e: Entry)
    requires Run(dm, s, ls).Some? && StaleAt(dm, s, ls, k, i, c, e.state)
    ensures !HoldsAt(dm, s, ls, k, i, e) || !HoldsAt(dm, s, ls, k + 1, i, e)
  {
    Prefixes(dm, s, ls, k);
    var u := At(dm, s, ls, k);
    if i < |u.entries| {
      OnlyPutsChange(dm, u, ls[k], i);
    }
  }

  /** Over every interleaving without a drive event on it, a device in a sticky state keeps it throughout
      exactly when no process event puts a different state that it read before the sticky state was there. */
  lemma KeptIff(dm: Drives, s: System, ls: seq<Label>, i: nat)
    requires OpsOk(s) && i < |s.entries| && Sticky(s.entries[i].state) && Run(dm, s, ls).Some?
    requires NoDrivePut(dm, s, ls, i)
    ensures Kept(dm, s, ls, i, s.entries[i]) <==> NoStalePut(dm, s, ls, i, s.clock, s.entries[i].state)
  {
    if NoStalePut(dm, s, ls, i, s.clock, s.entries[i].state) {
      forall k | 0 <= k <= |ls|
        ensures HoldsAt(dm, s, ls, k, i, s.entries[i])
      {
        KeptUpTo(dm, s, ls, i, k);
      }
    } else {
      var k :| StaleAt(dm, s, ls, k, i, s.clock, s.entries[i].state);
      ChangedByStale(dm, s, ls, k, i, s.clock, s.entries[i]);
    }
  }

  // ---------------------------------------------------------------- kept whatever follows

  /** No process event has collected a write of entry `i` other than `st`. */
  ghost predicate NothingStale(s: System, i: nat, st: State) {
    forall t, j | 0 <= t < |s.updaters| && Collected(s.updaters[t], i, j) :: s.updaters[t].ops[j].state == st
  }

  lemma NothingStaleStep(dm: Drives, s: System, l: Label, i: nat)
    requires Enabled(s, l) && i < |s.entries| && Sticky(s.entries[i].state) && NothingStale(s, i, s.entries[i].state)
    requires !Puts(s, l, i, true)
    ensures var u := Step(dm, s, l); i < |u.entries| && u.entries[i] == s.entries[i] && NothingStale(u, i, s.entries[i].state)
  {
    if l.Read? {
      var u := s.updaters[l.t];
      PreparedOps(dm, s.entries, |s.entries|, u.left[0], u.st, u.deviceEvent, s.clock);
    } else if Puts(s, l, i, false) {
      assert Collected(s.updaters[l.t], i, 0);
    }
  }

  lemma {:induction false} KeptWhenNothingStale(dm: Drives, s: System, ls: seq<Label>, i: nat, k: nat)
    requires i < |s.entries| && Sticky(s.entries[i].state) && NothingStale(s, i, s.entries[i].state)
    requires Run(dm, s, ls).Some? && NoDrivePut(dm, s, ls, i) && k <= |ls|
    ensures var u := At(dm, s, ls, k); i < |u.entries| && u.entries[i] == s.entries[i] && NothingStale(u, i, s.entries[i].state)
  {
    if k == 0 {
      assert ls[..0] == [];
    } else {
      KeptWhenNothingStale(dm, s, ls, i, k - 1);
      Prefixes(dm, s, ls, k - 1);
      var u, l := At(dm, s, ls, k - 1), ls[k-1];
      assert !PutsAt(dm, s, ls, k - 1, i, true);
      NothingStaleStep(dm, u, l, i);
    }
  }

  /** Some run without a drive event on entry `i` leads from `s` to `u`. */
  ghost predicate Leads(dm: Drives, s: System, u: System, i: nat) {
    exists ls :: Run(dm, s, ls) == Some(u) && NoDrivePut(dm, s, ls, i)
  }

  lemma LeadsOn(dm: Drives, s: System, u: System, l: Label, i: nat)
    requires Leads(dm, s, u, i) && Enabled(u, l) && !Puts(u, l, i, true)
    ensures Leads(dm, s, Step(dm, u, l), i)
  {
    var ls :| Run(dm, s, ls) == Some(u) && NoDrivePut(dm, s, ls, i);
    var more := ls + [l];
    assert more[..|ls|] == ls;
    forall k: nat
      ensures !PutsAt(dm, s, more, k, i, true)
    {
      if k < |ls| {
        assert more[..k] == ls[..k] && !PutsAt(dm, s, ls, k, i, true);
      }
    }
    assert Run(dm, s, more) == Some(Step(dm, u, l));
  }

  /** A process event can go on alone until it puts the `j`-th write it has collected. */
  lemma {:induction false} GoesOn(dm: Drives, s: System, u: System, t: nat, i: nat, j: nat) returns (v: System)
    requires Leads(dm, s, u, i) && OpsOk(u) && t < |u.updaters| && Collected(u.updaters[t], i, j) && i < |u.entries|
    ensures Leads(dm, s, v, i) && i < |v.entries| && v.entries[i].state == u.updaters[t].ops[j].state
    decreases |u.updaters[t].left|, j
  {
    var w := u.updaters[t];
    var l := if w.left != [] then Read(t) else Put(t);
    LeadsOn(dm, s, u, l, i);
    OpsOkStep(dm, u, l);
    var u' := Step(dm, u, l);
    if l.Read? {
      v := GoesOn(dm, s, u', t, i, j);
    } else if j > 0 {
      v := GoesOn(dm, s, u', t, i, j - 1);
    } else {
      v := u';
    }
  }

  /** A sticky state survives everything but drive events exactly when no process event under way has
      collected another state for its device. */
  lemma SurvivesIff(dm: Drives, s: System, i: nat)
    requires OpsOk(s) && i < |s.entries| && Sticky(s.entries[i].state)
    ensures (forall u :: Leads(dm, s, u, i) ==> i < |u.entries| && u.entries[i] == s.entries[i])
       <==> NothingStale(s, i, s.entries[i].state)
  {
    if NothingStale(s, i, s.entries[i].state) {
      forall u | Leads(dm, s, u, i)
        ensures i < |u.entries| && u.entries[i] == s.entries[i]
      {
        var ls :| Run(dm, s, ls) == Some(u) && NoDrivePut(dm, s, ls, i);
        KeptWhenNothingStale(dm, s, ls, i, |ls|);
        assert ls[..|ls|] == ls;
      }
    } else {
      var t, j :| 0 <= t < |s.updaters| && Collected(s.updaters[t], i, j) &&
                  s.updaters[t].ops[j].state != s.entries[i].state;
      assert Run(dm, s, []) == Some(s) && NoDrivePut(dm, s, [], i);
      var v := GoesOn(dm, s, s, t, i, j);
    }
  }

  /** No thread puts entry `i` during the run. */
  ghost predicate NoPut(dm: Drives, s: System, ls: seq<Label>, i: nat) {
    forall k :: !PutsAt(dm, s, ls, k, i, true) && !PutsAt(dm, s, ls, k, i, false)
  }

  lemma {:induction false} Unput(dm: Drives, s: System, ls: seq<Label>, i: nat, k: nat)
    requires Run(dm, s, ls).Some? && i < |s.entries| && k <= |ls| && NoPut(dm, s, ls, i)
    ensures var es := At(dm, s, ls, k).entries;
            |es| == |s.entries| && es[i] == s.entries[i] && forall j :: 0 <= j < |es| ==> es[j].sdev == s.entries[j].sdev
  {
    if k == 0 {
      assert ls[..0] == [];
    } else {
      Unput(dm, s, ls, i, k - 1);
      Prefixes(dm, s, ls, k - 1);
      var u := At(dm, s, ls, k - 1);
      assert !PutsAt(dm, s, ls, k - 1, i, true) && !PutsAt(dm, s, ls, k - 1, i, false);
      EntriesStay(dm, u, ls[k-1]);
      OnlyPutsChange(dm, u, ls[k-1], i);
    }
  }

  /** A note read after a process event has stored a device tells the state it left, if nobody puts the
      device in between. */
  lemma {:induction false} NoteUnlessPut(dm: Drives, s: System, ls: seq<Label>, i: nat)
    requires Run(dm, s, ls).Some? && i < |s.entries| && NoPut(dm, s, ls, i)
    requires forall j :: 0 <= j < i ==> s.entries[j].sdev != s.entries[i].sdev
    ensures SdevNote(Run(dm, s, ls).value.entries, s.entries[i].sdev) == NoteOf(s.entries[i].state)
  {
    Unput(dm, s, ls, i, |ls|);
    assert ls[..|ls|] == ls;
    SdevNoteIsFirst(Run(dm, s, ls).value.entries, s.entries[i].sdev, i);
  }

  // ---------------------------------------------------------------- updates that do not overlap

  /** The collected writes as entries, read off `es`. */
  function Bare(es: seq<Entry>, ops: seq<Op>): (r: seq<PutKV>)
    requires forall j :: 0 <= j < |ops| ==> ops[j].at < |es|
    ensures |r| == |ops| && forall j :: 0 <= j < |ops| ==> r[j] == PutKV(ops[j].at, es[ops[j].at].(state := ops[j].state))
  {
    seq(|ops|, j requires 0 <= j < |ops| => PutKV(ops[j].at, es[ops[j].at].(state := ops[j].state)))
  }

  lemma {:induction false} PreparedAll(dm: Drives, es: seq<Entry>, n: nat, d: Fid, st: State, deviceEvent: bool, now: nat, i: nat)
    requires i < n <= |es| && es[i].sdev == ToSdev(dm, d) && Takes(es[i], deviceEvent)
    ensures exists j :: 0 <= j < |Prepared(dm, es, n, d, st, deviceEvent, now)| &&
                        Prepared(dm, es, n, d, st, deviceEvent, now)[j].at == i
  {
    var ops := Prepared(dm, es, n, d, st, deviceEvent, now);
    if i == n - 1 {
      assert ops[|ops|-1].at == i;
    } else {
      PreparedAll(dm, es, n - 1, d, st, deviceEvent, now, i);
      var front := Prepared(dm, es, n - 1, d, st, deviceEvent, now);
      var j :| 0 <= j < |front| && front[j].at == i;
      assert ops[j].at == i;
    }
  }

  lemma PreparedPending(dm: Drives, es: seq<Entry>, d: Fid, st: State, deviceEvent: bool, now: nat)
    ensures var ops := Prepared(dm, es, |es|, d, st, deviceEvent, now);
            && (forall j :: 0 <= j < |ops| ==> ops[j].at < |es|)
            && Pending(dm, es, [d], st, deviceEvent, Bare(es, ops))
  {
    PreparedOps(dm, es, |es|, d, st, deviceEvent, now);
    var ops := Prepared(dm, es, |es|, d, st, deviceEvent, now);
    forall i | 0 <= i < |es|
      ensures Touched(dm, [d], es[i].sdev) <==> es[i].sdev == ToSdev(dm, d)
    {
      assert [d][0] == d;
    }
    forall i | 0 <= i < |es| && Touched(dm, [d], es[i].sdev) && Takes(es[i], deviceEvent)
      ensures Writes(Bare(es, ops), i)
    {
      PreparedAll(dm, es, |es|, d, st, deviceEvent, now, i);
      var j :| 0 <= j < |ops| && ops[j].at == i;
      assert Bare(es, ops)[j].at == i;
    }
  }

  ghost predicate Reaches(dm: Drives, s: System, u: System) {
    exists ls :: Run(dm, s, ls) == Some(u)
  }

  lemma ReachesOn(dm: Drives, s: System, u: System, l: Label)
    requires Reaches(dm, s, u) && Enabled(u, l)
    ensures Reaches(dm, s, Step(dm, u, l))
  {
    var ls :| Run(dm, s, ls) == Some(u);
    assert (ls + [l])[..|ls|] == ls;
    assert Run(dm, s, ls + [l]) == Some(Step(dm, u, l));
  }

  /** Updater `t` has read the drives `done` while the entries were `es`, and has still to put `ops`. */
  ghost predicate HasRead(dm: Drives, es: seq<Entry>, w: Updater, done: seq<Fid>) {
    && w.Updating? && (forall j :: 0 <= j < |w.ops| ==> w.ops[j].at < |es|)
    && Pending(dm, es, done, w.st, w.deviceEvent, Bare(es, w.ops))
  }

  function AfterRead(dm: Drives, es: seq<Entry>, w: Updater, now: nat): Updater
    requires w.Updating? && w.left != []
  {
    w.(left := w.left[1..], ops := w.ops + Prepared(dm, es, |es|, w.left[0], w.st, w.deviceEvent, now))
  }

  lemma BareAppend(es: seq<Entry>, a: seq<Op>, b: seq<Op>)
    requires forall j :: 0 <= j < |a| ==> a[j].at < |es|
    requires forall j :: 0 <= j < |b| ==> b[j].at < |es|
    ensures forall j :: 0 <= j < |a + b| ==> (a + b)[j].at < |es|
    ensures Bare(es, a + b) == Bare(es, a) + Bare(es, b)
  {
  }

  lemma HasReadMore(dm: Drives, es: seq<Entry>, w: Updater, done: seq<Fid>, now: nat)
    requires HasRead(dm, es, w, done) && w.left != []
    ensures HasRead(dm, es, AfterRead(dm, es, w, now), done + [w.left[0]])
  {
    var d := w.left[0];
    var more := Prepared(dm, es, |es|, d, w.st, w.deviceEvent, now);
    PreparedPending(dm, es, d, w.st, w.deviceEvent, now);
    BareAppend(es, w.ops, more);
    PendingPush(dm, es, done, d, w.st, w.deviceEvent, Bare(es, w.ops), Bare(es, more));
  }

  /** The updater when it has read all its drives. */
  function AllRead(dm: Drives, es: seq<Entry>, w: Updater, now: nat): (r: Updater)
    requires w.Updating?
    ensures r.Updating? && r.left == [] && r.st == w.st && r.deviceEvent == w.deviceEvent
    decreases |w.left|
  {
    if w.left == [] then w else AllRead(dm, es, AfterRead(dm, es, w, now), now + 1)
  }

  lemma {:induction false} HasReadAll(dm: Drives, es: seq<Entry>, w: Updater, done: seq<Fid>, now: nat)
    requires HasRead(dm, es, w, done)
    ensures HasRead(dm, es, AllRead(dm, es, w, now), done + w.left)
    decreases |w.left|
  {
    if w.left == [] {
      assert done + w.left == done;
    } else {
      HasReadMore(dm, es, w, done, now);
      HasReadAll(dm, es, AfterRead(dm, es, w, now), done + [w.left[0]], now + 1);
      assert done + w.left == (done + [w.left[0]]) + w.left[1..];
    }
  }

  /** `u` with updater `t` replaced, some steps later. */
  predicate Elsewhere(u: System, v: System, t: nat) {
    && |v.updaters| == |u.updaters| && t < |u.updaters|
    && forall r :: 0 <= r < |u.updaters| && r != t ==> v.updaters[r] == u.updaters[r]
  }

  lemma {:induction false} ReadsAlone(dm: Drives, s: System, u: System, t: nat) returns (v: System)
    requires Reaches(dm, s, u) && t < |u.updaters| && u.updaters[t].Updating?
    ensures Reaches(dm, s, v) && v.entries == u.entries && Elsewhere(u, v, t)
    ensures v.updaters[t] == AllRead(dm, u.entries, u.updaters[t], u.clock)
    decreases |u.updaters[t].left|
  {
    if u.updaters[t].left == [] {
      v := u;
    } else {
      ReachesOn(dm, s, u, Read(t));
      var u' := Step(dm, u, Read(t));
      ReadStep(dm, u, t);
      v := ReadsAlone(dm, s, u', t);
    }
  }

  lemma ReadStep(dm: Drives, u: System, t: nat)
    requires Enabled(u, Read(t))
    ensures var v := Step(dm, u, Read(t));
            && v.entries == u.entries && Elsewhere(u, v, t) && v.clock == u.clock + 1
            && v.updaters[t] == AfterRead(dm, u.entries, u.updaters[t], u.clock)
  {
  }

  /** The entries after all collected writes are put. */
  function AllPut(es: seq<Entry>, ops: seq<Op>): (r: seq<Entry>)
    requires forall j :: 0 <= j < |ops| ==> ops[j].at < |es|
    ensures |r| == |es|
    decreases |ops|
  {
    if ops == [] then es
    else AllPut(es[ops[0].at := es[ops[0].at].(state := ops[0].state)], ops[1..])
  }

  lemma {:induction false} AllPutAt(es: seq<Entry>, ops: seq<Op>, i: nat, st: State)
    requires (forall j :: 0 <= j < |ops| ==> ops[j].at < |es| && ops[j].state == st) && i < |es|
    ensures AllPut(es, ops)[i] == if exists j :: 0 <= j < |ops| && ops[j].at == i then es[i].(state := st) else es[i]
    decreases |ops|
  {
    if ops != [] {
      var es' := es[ops[0].at := es[ops[0].at].(state := st)];
      AllPutAt(es', ops[1..], i, st);
      if j :| 0 <= j < |ops| && ops[j].at == i && j > 0 {
        assert ops[1..][j-1].at == i;
      }
    }
  }

  lemma {:induction false} PutsAlone(dm: Drives, s: System, u: System, t: nat) returns (v: System)
    requires Reaches(dm, s, u) && t < |u.updaters| && u.updaters[t].Updating? && u.updaters[t].left == []
    requires forall j :: 0 <= j < |u.updaters[t].ops| ==> u.updaters[t].ops[j].at < |u.entries|
    ensures Reaches(dm, s, v) && Elsewhere(u, v, t) && v.updaters[t].Idle?
    ensures v.entries == AllPut(u.entries, u.updaters[t].ops)
    decreases |u.updaters[t].ops|
  {
    if u.updaters[t].ops == [] {
      ReachesOn(dm, s, u, End(t));
      v := Step(dm, u, End(t));
    } else {
      ReachesOn(dm, s, u, Put(t));
      v := PutsAlone(dm, s, Step(dm, u, Put(t)), t);
    }
  }

  lemma AllPutIsUpdated(dm: Drives, es: seq<Entry>, w: Updater, drives: seq<Fid>)
    requires HasRead(dm, es, w, drives)
    ensures AllPut(es, w.ops) == Updated(dm, es, drives, w.st, w.deviceEvent)
  {
    var puts := Bare(es, w.ops);
    forall j | 0 <= j < |w.ops|
      ensures w.ops[j].state == w.st
    {
      assert puts[j].entry == es[puts[j].at].(state := w.st);
    }
    forall i | 0 <= i < |es|
      ensures AllPut(es, w.ops)[i] == After(dm, es[i], drives, w.st, w.deviceEvent)
    {
      AllPutAt(es, w.ops, i, w.st);
      assert Writes(puts, i) <==> exists j :: 0 <= j < |w.ops| && w.ops[j].at == i;
    }
  }

  /** A call that no other thread interrupts does to the entries what one atomic update does. */
  lemma AtomicWhenAlone(dm: Drives, s: System, t: nat, drives: seq<Fid>, st: State, deviceEvent: bool)
    returns (v: System)
    requires t < |s.updaters| && s.updaters[t].Idle?
    ensures Reaches(dm, s, v) && Elsewhere(s, v, t) && v.updaters[t].Idle?
    ensures v.entries == Updated(dm, s.entries, drives, st, deviceEvent)
  {
    assert Run(dm, s, []) == Some(s);
    var b := Begin(t, drives, st, deviceEvent);
    ReachesOn(dm, s, s, b);
    var u := Step(dm, s, b);
    assert Pending(dm, s.entries, [], st, deviceEvent, Bare(s.entries, []));
    HasReadAll(dm, s.entries, u.updaters[t], [], u.clock);
    assert [] + drives == drives;
    var r := ReadsAlone(dm, s, u, t);
    v := PutsAlone(dm, s, r, t);
    AllPutIsUpdated(dm, s.entries, r.updaters[t], drives);
  }

  /** So a call for a drive event that nobody interrupts leaves each device of its drives in the new state,
      sticky or not before. */
  lemma DriveCallStores(dm: Drives, s: System, t: nat, d: Fid, st: State, i: nat) returns (v: System)
    requires t < |s.updaters| && s.updaters[t].Idle? && i < |s.entries| && s.entries[i].sdev == ToSdev(dm, d)
    ensures Reaches(dm, s, v) && i < |v.entries| && v.entries[i] == Entry(s.entries[i].sdev, st)
  {
    v := AtomicWhenAlone(dm, s, t, [d], st, true);
    assert [d][0] == d;
    assert Touched(dm, [d], s.entries[i].sdev);
  }

  /** And in any interleaving, each put of a drive event does. */
  lemma DrivePutStores(dm: Drives, s: System, l: Label, i: nat)
    requires i < |s.entries| && Puts(s, l, i, true)
    ensures Step(dm, s, l).entries == s.entries[i := s.entries[i].(state := s.updaters[l.t].ops[0].state)]
  {
  }

  /** A drive event collects a write of every entry of the drive it reads, whatever its state; a process event
      of those that are not sticky. */
  lemma ReadCollects(dm: Drives, s: System, t: nat, i: nat)
    requires Enabled(s, Read(t)) && i < |s.entries| && s.entries[i].sdev == ToSdev(dm, s.updaters[t].left[0])
    ensures var u, v := s.updaters[t], Step(dm, s, Read(t)).updaters[t];
            (exists j :: |u.ops| <= j < |v.ops| && v.ops[j] == Op(i, u.st, s.clock)) <==> u.deviceEvent || !Sticky(s.entries[i].state)
  {
    var u, v := s.updaters[t], Step(dm, s, Read(t)).updaters[t];
    var more := Prepared(dm, s.entries, |s.entries|, u.left[0], u.st, u.deviceEvent, s.clock);
    PreparedOps(dm, s.entries, |s.entries|, u.left[0], u.st, u.deviceEvent, s.clock);
    assert v.ops == u.ops + more;
    if Takes(s.entries[i], u.deviceEvent) {
      PreparedAll(dm, s.entries, |s.entries|, u.left[0], u.st, u.deviceEvent, s.clock, i);
      var j :| 0 <= j < |more| && more[j].at == i;
      assert v.ops[|u.ops| + j] == more[j];
    }
    forall j | |u.ops| <= j < |v.ops| && v.ops[j] == Op(i, u.st, s.clock)
      ensures Takes(s.entries[i], u.deviceEvent)
    {
      assert more[j - |u.ops|].at == i;
    }
  }

  lemma {:induction false} RunAppend(dm: Drives, s: System, a: seq<Label>, b: seq<Label>)
    requires Run(dm, s, a).Some?
    ensures Run(dm, s, a + b) == Run(dm, Run(dm, s, a).value, b)
    decreases |b|
  {
    if b == [] {
      assert a + b == a;
    } else {
      var last := b[|b|-1];
      RunAppend(dm, s, a, b[..|b|-1]);
      assert (a + b)[..|a + b|-1] == a + b[..|b|-1];
      assert (a + b)[|a + b|-1] == last;
    }
  }

  /** Calls carried out one after the other do what the atomic events do, so that the theorems about those
      are theorems about every history of calls that do not overlap. */
  lemma {:induction false} SerialIsAtomic(dm: Drives, s: System, t: nat, evs: seq<Event>) returns (v: System)
    requires t < |s.updaters| && s.updaters[t].Idle?
    ensures Reaches(dm, s, v) && Elsewhere(s, v, t) && v.updaters[t].Idle?
    ensures v.entries == DriveStates.Run(dm, s.entries, evs)
    decreases |evs|
  {
    if evs == [] {
      assert Run(dm, s, []) == Some(s);
      v := s;
    } else {
      var u := SerialIsAtomic(dm, s, t, evs[..|evs|-1]);
      var e := evs[|evs|-1];
      v := OneEvent(dm, u, t, e);
      var a :| Run(dm, s, a) == Some(u);
      var b :| Run(dm, u, b) == Some(v);
      RunAppend(dm, s, a, b);
    }
  }

  lemma OneEvent(dm: Drives, u: System, t: nat, e: Event) returns (v: System)
    requires t < |u.updaters| && u.updaters[t].Idle?
    ensures Reaches(dm, u, v) && Elsewhere(u, v, t) && v.updaters[t].Idle? && v.entries == Apply(dm, u.entries, e)
  {
    if e.DriveEvent? && !e.health.Unknown? && !e.health.Stopped? {
      v := AtomicWhenAlone(dm, u, t, [e.drive], StateOf(e.health).value, true);
    } else if e.ProcessEvent? && !MkfsDown(e) && e.updateKv {
      v := AtomicWhenAlone(dm, u, t, e.drives, StateOf(DiskHealth(e.note)).value, false);
    } else {
      assert Run(dm, u, []) == Some(u);
      v := u;
    }
  }
}
