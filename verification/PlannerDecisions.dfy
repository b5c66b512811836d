/** What the workers of the planner get and when they sleep, over all runs and for either numbering of
    groups (hax/hax/motr/planner.py). */
module PlannerDecisions {
  import opened Fids
  import opened LinkedLists
  import opened Planning
  import opened PlannerSystem

  // ---------------------------------------------------------------- what a take hands out

  /** No active process event concerns the process of `c`. */
  ghost predicate Free(s: System, c: Command) {
    c.kind.ProcessEvent? ==>
      forall i :: 0 <= i < |s.p.active| && s.p.active[i].kind.ProcessEvent? ==> s.p.active[i].fid != c.fid
  }

  lemma FreeIsAllowed(s: System, c: Command)
    requires MetaExact(s.p.active, s.p.meta)
    ensures AllowedAsap(s.p, c) <==> Free(s, c)
  {
    if c.kind.ProcessEvent? {
      if c.fid in s.p.meta.Values {
        var k :| k in s.p.meta && s.p.meta[k] == c.fid;
        var i :| 0 <= i < |s.p.active| && s.p.active[i].kind.ProcessEvent? && s.p.active[i].id == k;
        assert s.p.active[i].fid == c.fid;
      } else {
        forall i | 0 <= i < |s.p.active| && s.p.active[i].kind.ProcessEvent?
          ensures s.p.active[i].fid != c.fid
        {
          assert s.p.meta[s.p.active[i].id] in s.p.meta.Values;
        }
      }
    }
  }

  ghost predicate AsapReady(s: System) {
    s.p.asap != [] && Free(s, s.p.asap[0])
  }

  predicate HeadCurrent(p: Planner) {
    p.backlog != [] && p.backlog[0].group == p.cur
  }

  /** Worker `w` is given `c`. */
  predicate Given(t: System, w: nat, c: Command) {
    w < |t.workers| && t.workers[w] == Busy(c)
  }

  /** After shutdown everyone gets a Die; before it the head of the out-of-order list comes first, unless it
      is a process event whose process has an active one; then the head of the backlog, if it is of the
      current group; and else the worker goes to sleep. */
  lemma TakePriority(ids: GroupIds, g: nat, n: nat, ls: seq<Label>, s: System, w: nat)
    requires n > 0 && Run(ids, Start(g, n), ls) == Some(s) && Enabled(s, Take(w))
    ensures var t := Step(ids, s, Take(w));
            && (s.p.shutdown ==> w < |t.workers| && t.workers[w].Busy? && t.workers[w].cmd.kind.Die? && t.p == s.p
                                 && t.started == s.started && t.startedAsap == s.startedAsap)
            && (!s.p.shutdown && AsapReady(s) ==>
                  Given(t, w, s.p.asap[0]) && t.startedAsap == s.startedAsap + [s.p.asap[0]] && t.started == s.started
                  && t.p.backlog == s.p.backlog)
            && (!s.p.shutdown && !AsapReady(s) && HeadCurrent(s.p) ==>
                  Given(t, w, s.p.backlog[0]) && t.started == s.started + [s.p.backlog[0]]
                  && t.startedAsap == s.startedAsap && t.p.asap == s.p.asap)
            && (!s.p.shutdown && !AsapReady(s) && !HeadCurrent(s.p) ==> t == s.(workers := s.workers[w := Asleep]))
  {
    RunCore(ids, g, n, ls);
    if s.p.asap != [] {
      FreeIsAllowed(s, s.p.asap[0]);
    }
  }

  /** A worker leaves exactly when it has finished a Die; otherwise it asks again. */
  lemma LeavesIff(ids: GroupIds, s: System, w: nat)
    requires Enabled(s, Finish(w))
    ensures var t := Step(ids, s, Finish(w));
            w < |t.workers| && (t.workers[w].Exited? <==> s.workers[w].cmd.kind.Die?) && (t.workers[w].Exited? || t.workers[w].Awake?)
  {
  }

  /** An out-of-order command is marked with the current group and changes no group; any other carries the
      number of the group being filled, after it has opened one if it must. */
  lemma AddMarks(ids: GroupIds, s: System, id: nat, kind: Kind, f: Fid)
    requires Enabled(s, Add(id, kind, f))
    ensures var t := Step(ids, s, Add(id, kind, f));
            if kind.IsAsap() then
              t.submittedAsap == s.submittedAsap + [Command(id, kind, f, s.p.cur)] && t.submitted == s.submitted
              && t.p == s.p.(asap := s.p.asap + [Command(id, kind, f, s.p.cur)])
            else
              && t.submitted == s.submitted + [Command(id, kind, f, t.p.nxt)] && t.submittedAsap == s.submittedAsap
              && t.p.backlog == s.p.backlog + [Command(id, kind, f, t.p.nxt)] && t.p.cur == s.p.cur
              && t.p.nxt == if OpensGroup(s.p, kind) then Increased(ids, s.p.nxt) else s.p.nxt
    ensures forall w :: 0 <= w < |s.workers| ==> !Step(ids, s, Add(id, kind, f)).workers[w].Asleep?
  {
  }

  // ---------------------------------------------------------------- who sleeps

  /** Nobody sleeps after shutdown or while the head of the backlog is of the current group. */
  predicate Sleeping(s: System) {
    forall w :: 0 <= w < |s.workers| && s.workers[w].Asleep? ==> !s.p.shutdown && !HeadCurrent(s.p)
  }

  lemma SleepingTake(ids: GroupIds, s: System, w: nat)
    requires Sleeping(s) && Enabled(s, Take(w))
    ensures Sleeping(Step(ids, s, Take(w)))
  {
  }

  lemma SleepingFinish(ids: GroupIds, s: System, w: nat)
    requires Sleeping(s) && Enabled(s, Finish(w))
    ensures Sleeping(Step(ids, s, Finish(w)))
  {
  }

  lemma SleepingStep(ids: GroupIds, s: System, l: Label)
    requires Sleeping(s) && Enabled(s, l)
    ensures Sleeping(Step(ids, s, l))
  {
    match l {
      case Take(w) => SleepingTake(ids, s, w);
      case Finish(w) => SleepingFinish(ids, s, w);
      case Add(_, _, _) =>
      case Shutdown =>
    }
  }

  lemma {:induction false} RunSleeping(ids: GroupIds, g: nat, n: nat, ls: seq<Label>)
    requires Run(ids, Start(g, n), ls).Some?
    ensures Sleeping(Run(ids, Start(g, n), ls).value)
    decreases |ls|
  {
    if ls != [] {
      RunSleeping(ids, g, n, ls[..|ls|-1]);
      SleepingStep(ids, Run(ids, Start(g, n), ls[..|ls|-1]).value, ls[|ls|-1]);
    }
  }

  /** In every run, any worker that sleeps, be it just one, sleeps while the planner is not shut down and the
      backlog is empty or headed by another group: whatever changes that wakes it. */
  lemma SleepersAreIdle(ids: GroupIds, g: nat, n: nat, ls: seq<Label>, s: System, w: nat)
    requires Run(ids, Start(g, n), ls) == Some(s) && w < |s.workers| && s.workers[w].Asleep?
    ensures !s.p.shutdown
    ensures s.p.backlog == [] || s.p.backlog[0].group != s.p.cur
    ensures Choose(s.p).Nothing? || Choose(s.p).FromAsap?
  {
    RunSleeping(ids, g, n, ls);
    assert !s.p.shutdown && !HeadCurrent(s.p);
  }

  // ---------------------------------------------------------------- a sleeper that is overlooked

  /** An SNS operation and a process event under way, another event of the same process waiting, and one
      worker asleep because of that. */
  function Blocked(g: nat, f: Fid): System {
    var c1, c2, c3 := Command(1, SnsRepairStart, f, g), Command(2, ProcessEvent, f, g), Command(3, ProcessEvent, f, g);
    System(Planner(g, g, [c2, c1], map[2 := f], {SnsRepairStart}, false, [], [c3]),
           [Busy(c1), Busy(c2), Asleep], [c1], [c2, c3], [c1], [c2], [])
  }

  /** One worker busy with the SNS operation. */
  function OneBusy(g: nat, f: Fid): System {
    var c1 := Command(1, SnsRepairStart, f, g);
    System(Planner(g, g, [c1], map[], {SnsRepairStart}, false, [], []), [Busy(c1), Awake, Awake], [c1], [], [c1], [], [])
  }

  /** A second one busy with the process event. */
  function TwoBusy(g: nat, f: Fid): System {
    var c1, c2 := Command(1, SnsRepairStart, f, g), Command(2, ProcessEvent, f, g);
    System(Planner(g, g, [c2, c1], map[2 := f], {SnsRepairStart}, false, [], []),
           [Busy(c1), Busy(c2), Awake], [c1], [c2], [c1], [c2], [])
  }

  /** `s` after an event of process `f` was submitted. */
  function WithEvent(s: System, id: nat, f: Fid): System {
    var c := Command(id, ProcessEvent, f, s.p.cur);
    s.(p := s.p.(asap := s.p.asap + [c]), submittedAsap := s.submittedAsap + [c])
  }

  ghost predicate Reachable(ids: GroupIds, g: nat, n: nat, s: System) {
    exists ls :: Run(ids, Start(g, n), ls) == Some(s)
  }

  lemma ReachOn(ids: GroupIds, g: nat, n: nat, s: System, l: Label, t: System)
    requires Reachable(ids, g, n, s) && Enabled(s, l) && Step(ids, s, l) == t
    ensures Reachable(ids, g, n, t)
  {
    var ls :| Run(ids, Start(g, n), ls) == Some(s);
    RunSnoc(ids, Start(g, n), ls, s, l);
  }

  lemma AddEvent(ids: GroupIds, s: System, id: nat, f: Fid)
    requires forall w :: 0 <= w < |s.workers| ==> !s.workers[w].Asleep?
    ensures StepAdd(ids, s, id, ProcessEvent, f) == WithEvent(s, id, f)
  {
    assert Woken(s.workers) == s.workers;
  }

  lemma TakeEvent(s: System, w: nat, c: Command)
    requires w < |s.workers| && !s.p.shutdown && s.p.asap == [c] && c.kind.ProcessEvent? && s.p.meta == map[]
    ensures StepTake(s, w) ==
            s.(p := s.p.(asap := [], active := [c] + s.p.active, meta := map[c.id := c.fid]),
               workers := s.workers[w := Busy(c)], startedAsap := s.startedAsap + [c])
  {
    assert c.fid !in s.p.meta.Values;
    assert s.p.asap[1..] == [];
    assert s.p.meta[c.id := c.fid] == map[c.id := c.fid];
  }

  lemma TakeNothing(s: System, w: nat, k: nat)
    requires w < |s.workers| && !s.p.shutdown && s.p.asap != [] && s.p.asap[0].kind.ProcessEvent? && s.p.backlog == []
    requires k in s.p.meta && s.p.meta[k] == s.p.asap[0].fid
    ensures StepTake(s, w) == s.(workers := s.workers[w := Asleep])
  {
    assert s.p.asap[0].fid in s.p.meta.Values;
  }

  /** The SNS operation queued. */
  function OneQueued(g: nat, f: Fid): System {
    var c1 := Command(1, SnsRepairStart, f, g);
    System(Planner(g, g, [], map[], {SnsRepairStart}, false, [c1], []), [Awake, Awake, Awake], [c1], [], [], [], [])
  }

  lemma QueueOne(ids: GroupIds, g: nat, f: Fid)
    ensures StepAdd(ids, Start(g, 3), 1, SnsRepairStart, f) == OneQueued(g, f)
  {
    var s := Start(g, 3);
    assert s.workers == [Awake, Awake, Awake] && Woken(s.workers) == s.workers;
    assert [] + [Command(1, SnsRepairStart, f, g)] == [Command(1, SnsRepairStart, f, g)];
    assert {} + {SnsRepairStart} == {SnsRepairStart};
  }

  lemma TakeOne(g: nat, f: Fid)
    ensures StepTake(OneQueued(g, f), 0) == OneBusy(g, f)
  {
    assert OneQueued(g, f).p.backlog[1..] == [];
  }

  lemma ReachOneBusy(ids: GroupIds, g: nat, f: Fid)
    ensures Reachable(ids, g, 3, OneBusy(g, f))
  {
    assert Run(ids, Start(g, 3), []) == Some(Start(g, 3));
    QueueOne(ids, g, f);
    ReachOn(ids, g, 3, Start(g, 3), Add(1, SnsRepairStart, f), OneQueued(g, f));
    TakeOne(g, f);
    ReachOn(ids, g, 3, OneQueued(g, f), Take(0), OneBusy(g, f));
  }

  lemma ReachTwoBusy(ids: GroupIds, g: nat, f: Fid)
    ensures Reachable(ids, g, 3, TwoBusy(g, f))
  {
    var s2, s3, c2 := OneBusy(g, f), WithEvent(OneBusy(g, f), 2, f), Command(2, ProcessEvent, f, g);
    ReachOneBusy(ids, g, f);
    AddEvent(ids, s2, 2, f);
    ReachOn(ids, g, 3, s2, Add(2, ProcessEvent, f), s3);
    assert [] + [c2] == [c2];
    TakeEvent(s3, 1, c2);
    ReachOn(ids, g, 3, s3, Take(1), TwoBusy(g, f));
  }

  lemma ReachBlocked(ids: GroupIds, g: nat, f: Fid)
    ensures Reachable(ids, g, 3, Blocked(g, f))
  {
    var s4, s5, c3 := TwoBusy(g, f), WithEvent(TwoBusy(g, f), 3, f), Command(3, ProcessEvent, f, g);
    ReachTwoBusy(ids, g, f);
    AddEvent(ids, s4, 3, f);
    ReachOn(ids, g, 3, s4, Add(3, ProcessEvent, f), s5);
    assert [] + [c3] == [c3];
    TakeNothing(s5, 2, 2);
    ReachOn(ids, g, 3, s5, Take(2), Blocked(g, f));
  }

  /** The out-of-order list is the exception: when the process event that blocked its head finishes while
      another command is active, nobody is woken, and a worker sleeps on with work at hand. */
  lemma SleeperOverlooked(ids: GroupIds, g: nat, f: Fid) returns (s: System)
    ensures Reachable(ids, g, 3, s) && |s.workers| == 3 && s.workers[2].Asleep? && Choose(s.p).FromAsap?
  {
    var b := Blocked(g, f);
    ReachBlocked(ids, g, f);
    assert RemoveFirst(b.p.active, b.p.active[0]) == b.p.active[1..];
    s := Step(ids, b, Finish(1));
    ReachOn(ids, g, 3, b, Finish(1), s);
    assert s.p.meta == map[];
  }
}
