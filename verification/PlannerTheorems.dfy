/** What the planner guarantees over whole runs. */
module PlannerTheorems {
  import opened Fids
  import opened LinkedLists
  import opened Planning
  import opened PlannerSystem
  import opened PlannerRefinement

  // ---------------------------------------------------------------- a bound a caller can check

  ghost function GroupsOf(cs: seq<Command>): set<nat> {
    set i | 0 <= i < |cs| :: cs[i].group
  }

  lemma {:induction false} FewGroups(cs: seq<Command>)
    ensures |GroupsOf(cs)| <= |cs|
  {
    if cs != [] {
      var front := cs[..|cs|-1];
      FewGroups(front);
      assert GroupsOf(cs) == GroupsOf(front) + {cs[|cs|-1].group};
    }
  }

  function Interval(lo: nat, hi: nat): (r: set<nat>)
    requires lo <= hi
    ensures |r| == hi - lo && forall g :: g in r <==> lo < g <= hi
    decreases hi
  {
    if lo == hi then {} else Interval(lo, hi - 1) + {hi}
  }

  lemma CoverNeeds(cs: seq<Command>, lo: nat, hi: nat)
    requires lo <= hi && Covered(cs, lo, hi)
    ensures hi - lo <= |cs|
  {
    forall g | g in Interval(lo, hi)
      ensures g in GroupsOf(cs)
    {
      assert HasGroup(cs, g);
    }
    Subset(Interval(lo, hi), GroupsOf(cs));
    FewGroups(cs);
  }

  lemma {:induction false} Subset(a: set<nat>, b: set<nat>)
    requires a <= b
    ensures |a| <= |b|
  {
    if a != {} {
      var x :| x in a;
      Subset(a - {x}, b - {x});
    }
  }

  /** In no state of the run does the backlog hold more than `m` commands. */
  ghost predicate BacklogBounded(m: nat, g: nat, n: nat, ls: seq<Label>) {
    forall k :: 0 <= k <= |ls| ==>
                  match Run(Cyclic(m), Start(g % (m + 1), n), ls[..k])
                  case None => true
                  case Some(u) => |u.p.backlog| <= m
  }

  /** A backlog of at most MAX_GROUP_ID commands keeps the group window. */
  lemma {:induction false} BoundedIsWithin(m: nat, g: nat, n: nat, ls: seq<Label>)
    requires n > 0 && BacklogBounded(m, g, n, ls)
    ensures Within(m, Start(g, n), ls)
    decreases |ls|
  {
    forall k | 0 <= k < |ls| && Run(Unbounded, Start(g, n), ls[..k]).Some?
      ensures Run(Unbounded, Start(g, n), ls[..k]).value.p.nxt - Run(Unbounded, Start(g, n), ls[..k]).value.p.cur <= m
    {
      forall j | 0 <= j < k ensures ls[..k][..j] == ls[..j] {}
      BoundedIsWithin(m, g, n, ls[..k]);
      RunRefines(m, g, n, ls[..k]);
      RunInv(g, n, ls[..k]);
      var t := Run(Unbounded, Start(g, n), ls[..k]).value;
      CoverNeeds(t.p.backlog, t.p.cur, t.p.nxt);
    }
  }

  /** The window holds in every state of the unbounded run of `ls`, the last one included. */
  ghost predicate Throughout(m: nat, g: nat, n: nat, ls: seq<Label>) {
    && Within(m, Start(g, n), ls)
    && match Run(Unbounded, Start(g, n), ls)
       case None => true
       case Some(t) => t.p.nxt - t.p.cur <= m
  }

  /** So each theorem below holds for runs with a backlog of at most MAX_GROUP_ID commands. */
  lemma BoundedIsThroughout(m: nat, g: nat, n: nat, ls: seq<Label>)
    requires n > 0 && BacklogBounded(m, g, n, ls)
    ensures Throughout(m, g, n, ls)
  {
    BoundedIsWithin(m, g, n, ls);
    RunRefines(m, g, n, ls);
    if Run(Unbounded, Start(g, n), ls).Some? {
      RunInv(g, n, ls);
      var t := Run(Unbounded, Start(g, n), ls).value;
      assert ls[..|ls|] == ls;
      CoverNeeds(t.p.backlog, t.p.cur, t.p.nxt);
    }
  }

  /** The state a run of the real planner in the window reaches is a wrapped, well-behaved unbounded one. */
  lemma Shadow(m: nat, g: nat, n: nat, ls: seq<Label>) returns (t: System)
    requires n > 0 && Within(m, Start(g, n), ls) && Run(Cyclic(m), Start(g % (m + 1), n), ls).Some?
    ensures Run(Unbounded, Start(g, n), ls) == Some(t) && Inv(t)
    ensures Run(Cyclic(m), Start(g % (m + 1), n), ls).value == Wrap(m, t)
    ensures t.p.nxt - t.p.cur <= m ==> InWindow(m, t.p)
  {
    RunRefines(m, g, n, ls);
    RunInv(g, n, ls);
    t := Run(Unbounded, Start(g, n), ls).value;
    if t.p.nxt - t.p.cur <= m {
      InvInWindow(m, t);
    }
  }

  // ---------------------------------------------------------------- the window in every reachable state

  /** Queued groups never decrease, lie between the current and the next group, and leave out no
      group in between. */
  lemma WindowInvariant(g: nat, n: nat, ls: seq<Label>)
    requires n > 0 && Run(Unbounded, Start(g, n), ls).Some?
    ensures var p := Run(Unbounded, Start(g, n), ls).value.p;
            && p.cur <= p.nxt && Sorted(p.backlog) && Covered(p.backlog, p.cur, p.nxt)
            && forall i :: 0 <= i < |p.backlog| ==> p.cur <= p.backlog[i].group <= p.nxt
  {
    RunInv(g, n, ls);
    BacklogView(Run(Unbounded, Start(g, n), ls).value);
  }

  /** Comparing wrapped ids with the current one gives the right answer for every queued command. */
  ghost predicate IdsFaithful(m: nat, p: Planner) {
    forall i :: 0 <= i < |p.backlog| ==>
                  (p.backlog[i].group % (m + 1) == p.cur % (m + 1) <==> p.backlog[i].group == p.cur)
  }

  lemma WindowIsFaithful(m: nat, p: Planner)
    requires InWindow(m, p)
    ensures IdsFaithful(m, p)
  {
    forall i | 0 <= i < |p.backlog|
      ensures p.backlog[i].group % (m + 1) == p.cur % (m + 1) <==> p.backlog[i].group == p.cur
    {
      IdsAgree(p.cur, p.backlog[i].group, m);
    }
  }

  lemma BeyondIsUnfaithful(m: nat, p: Planner)
    requires p.cur + m < p.nxt && Covered(p.backlog, p.cur, p.nxt)
    ensures !IdsFaithful(m, p)
  {
    assert HasGroup(p.backlog, p.cur + m + 1);
    var i :| 0 <= i < |p.backlog| && p.backlog[i].group == p.cur + m + 1;
    FullTurn(p.cur, m);
  }

  /** In every reachable state the wrapped ids are faithful exactly when at most `m` groups lie
      between the current group and the one being filled. */
  lemma IdsFaithfulIff(m: nat, g: nat, n: nat, ls: seq<Label>, s: System)
    requires n > 0 && Run(Unbounded, Start(g, n), ls) == Some(s)
    ensures IdsFaithful(m, s.p) <==> s.p.nxt - s.p.cur <= m
  {
    WindowInvariant(g, n, ls);
    if s.p.nxt - s.p.cur <= m {
      WindowIsFaithful(m, s.p);
    } else {
      BeyondIsUnfaithful(m, s.p);
    }
  }

  // ---------------------------------------------------------------- no lost wake-up, no deadlock

  lemma ActiveMeansBusy(s: System)
    requires WorkInv(s) && s.p.active != []
    ensures !AllAsleep(s.workers)
  {
    assert SomeoneRuns(s.workers, s.p.active[0]);
    var w :| RunsAt(s.workers, w, s.p.active[0]);
    assert s.workers[w].Busy?;
  }

  lemma QuietWhenAsleep(s: System)
    requires Inv(s) && AllAsleep(s.workers)
    ensures s.p.active == [] && s.p.asap == [] && s.p.backlog == []
  {
    if s.p.active != [] {
      ActiveMeansBusy(s);
    }
    assert forall k :: k !in s.p.meta;
    BacklogView(s);
  }

  /** Whenever every worker sleeps there is nothing left to do, and everything ever submitted has
      been carried out. */
  lemma NoLostWakeup(m: nat, g: nat, n: nat, ls: seq<Label>, u: System)
    requires n > 0 && Within(m, Start(g, n), ls)
    requires Run(Cyclic(m), Start(g % (m + 1), n), ls) == Some(u) && AllAsleep(u.workers)
    ensures u.p.backlog == [] && u.p.asap == [] && u.p.active == []
    ensures multiset(u.finished) == multiset(u.submitted) + multiset(u.submittedAsap)
  {
    var t := Shadow(m, g, n, ls);
    forall w | 0 <= w < |t.workers| ensures t.workers[w].Asleep? {
      assert u.workers[w].Asleep?;
    }
    QuietWhenAsleep(t);
    RunCore(Cyclic(m), g % (m + 1), n, ls);
    assert u.submitted == u.started && u.submittedAsap == u.startedAsap;
  }

  // ---------------------------------------------------------------- group order

  /** All commands of all groups before the current one are finished. */
  lemma EarlierGroupsFinished(s: System, i: nat)
    requires Inv(s) && i < |s.submitted| && s.submitted[i].group < s.p.cur
    ensures s.submitted[i] in s.finished
  {
    var c := s.submitted[i];
    forall k | |s.started| <= k < |s.submitted|
      ensures s.submitted[k].group >= s.p.cur
    {
      assert s.submitted[k] == s.p.backlog[k - |s.started|];
    }
    assert c == s.started[i];
    assert c in multiset(s.started) + multiset(s.startedAsap);
    assert c in multiset(s.p.active) + multiset(s.finished);
  }

  /** A queued command is handed out only when every command of every earlier group is finished.
      Which group is earlier is read off the unbounded run `t`, as wrapped numbers do not tell. */
  lemma GroupsInOrder(m: nat, g: nat, n: nat, ls: seq<Label>, t: System, u: System, i: nat)
    requires n > 0 && Throughout(m, g, n, ls)
    requires Run(Cyclic(m), Start(g % (m + 1), n), ls) == Some(u) && Run(Unbounded, Start(g, n), ls) == Some(t)
    requires Choose(u.p).FromBacklog? && i < |t.submitted|
    requires t.p.backlog != [] && t.submitted[i].group < t.p.backlog[0].group
    ensures i < |u.submitted| && u.submitted[i] in u.finished
  {
    var _ := Shadow(m, g, n, ls);
    WrapTake(m, t.p);
    EarlierGroupsFinished(t, i);
    var k :| 0 <= k < |t.finished| && t.finished[k] == t.submitted[i];
    assert u.finished[k] == u.submitted[i];
  }

  /** A broadcast or a process HA event is a barrier: when it is handed out, everything submitted
      before it to the ordered queue is finished. */
  lemma ExclusiveIsBarrier(m: nat, g: nat, n: nat, ls: seq<Label>, u: System, i: nat)
    requires n > 0 && Throughout(m, g, n, ls) && Run(Cyclic(m), Start(g % (m + 1), n), ls) == Some(u)
    requires Choose(u.p).FromBacklog? && Chosen(u.p).kind.IsExclusive() && i < |u.started|
    ensures u.started[i] in u.finished
  {
    var t := Shadow(m, g, n, ls);
    WrapTake(m, t.p);
    var j := |t.started|;
    assert t.submitted[j] == t.p.backlog[0] && t.submitted[i] == t.started[i];
    EarlierGroupsFinished(t, i);
    var k :| 0 <= k < |t.finished| && t.finished[k] == t.submitted[i];
    assert u.finished[k] == u.started[i];
  }

  /** At most one broadcast or process HA event is active at any time. */
  lemma OneExclusiveActive(m: nat, g: nat, n: nat, ls: seq<Label>, u: System, i: nat, j: nat)
    requires n > 0 && Within(m, Start(g, n), ls) && Run(Cyclic(m), Start(g % (m + 1), n), ls) == Some(u)
    requires i < |u.p.active| && j < |u.p.active|
    requires u.p.active[i].kind.IsExclusive() && u.p.active[j].kind.IsExclusive()
    ensures i == j
  {
    var t := Shadow(m, g, n, ls);
    var a, b := t.p.active[i], t.p.active[j];
    assert u.p.active[i] == WrapCmd(m, a) && u.p.active[j] == WrapCmd(m, b);
    var x := SubmittedAt(t, a);
    var y := SubmittedAt(t, b);
    assert a.group == b.group == t.p.cur;
    assert x == y;
  }

  lemma SubmittedAt(s: System, c: Command) returns (k: nat)
    requires Inv(s) && c in s.p.active && !c.kind.IsAsap()
    ensures k < |s.submitted| && s.submitted[k] == c
  {
    ActiveWasStarted(s, c);
    forall i | 0 <= i < |s.startedAsap|
      ensures s.startedAsap[i].kind.IsAsap()
    {
      assert s.submittedAsap[i] == s.startedAsap[i];
    }
    k :| 0 <= k < |s.started| && s.started[k] == c;
    assert s.submitted[k] == c;
  }

  // ---------------------------------------------------------------- the out-of-order list

  /** Whatever the group numbers do: both queues are first in first out, nothing is lost or run
      twice, `active_meta` describes exactly the active process events, no two of which concern one
      process. */
  lemma QueuesAndEvents(ids: GroupIds, g: nat, n: nat, ls: seq<Label>, u: System)
    requires n > 0 && Run(ids, Start(g, n), ls) == Some(u)
    ensures u.submitted == u.started + u.p.backlog && u.submittedAsap == u.startedAsap + u.p.asap
    ensures multiset(u.started) + multiset(u.startedAsap) == multiset(u.p.active) + multiset(u.finished)
    ensures DistinctIds(u.submitted) && DistinctIds(u.submittedAsap) && ApartIds(u.submitted, u.submittedAsap)
    ensures MetaExact(u.p.active, u.p.meta) && EventsApart(u.p.active)
  {
    RunCore(ids, g, n, ls);
  }

  // ---------------------------------------------------------------- every run drains

  function Weight(w: Worker, n: nat): nat {
    match w
    case Busy(_) => n + 2
    case Awake => 1
    case _ => 0
  }

  function WeightAll(ws: seq<Worker>, n: nat): nat {
    if ws == [] then 0 else Weight(ws[0], n) + WeightAll(ws[1..], n)
  }

  lemma {:induction false} WeightUpdate(ws: seq<Worker>, w: nat, x: Worker, n: nat)
    requires w < |ws|
    ensures WeightAll(ws[w := x], n) + Weight(ws[w], n) == WeightAll(ws, n) + Weight(x, n)
  {
    if w == 0 {
      assert ws[0 := x][1..] == ws[1..];
    } else {
      assert ws[w := x][1..] == ws[1..][w - 1 := x];
      WeightUpdate(ws[1..], w - 1, x, n);
    }
  }

  lemma {:induction false} WeightWoken(ws: seq<Worker>, n: nat)
    ensures WeightAll(Woken(ws), n) <= WeightAll(ws, n) + |ws|
  {
    if ws != [] {
      assert Woken(ws)[1..] == Woken(ws[1..]);
      WeightWoken(ws[1..], n);
    }
  }

  /** How much work, counting wake-ups, is left. */
  function Rank(s: System): nat {
    var n := |s.workers|;
    (|s.p.backlog| + |s.p.asap|) * (n + 2) + WeightAll(s.workers, n)
  }

  predicate IsWorkerLabel(l: Label) {
    l.Take? || l.Finish?
  }

  lemma RankDrops(ids: GroupIds, s: System, l: Label)
    requires Enabled(s, l) && IsWorkerLabel(l) && !s.p.shutdown
    ensures var t := Step(ids, s, l);
            && Rank(t) < Rank(s) && !t.p.shutdown && |t.p.backlog| <= |s.p.backlog|
            && t.submitted == s.submitted && t.submittedAsap == s.submittedAsap
  {
    var n, t := |s.workers|, Step(ids, s, l);
    if l.Take? {
      WeightUpdate(s.workers, l.w, t.workers[l.w], n);
      if !Choose(s.p).Nothing? {
        var q := |s.p.backlog| + |s.p.asap|;
        assert |t.p.backlog| + |t.p.asap| == q - 1;
        assert (q - 1) * (n + 2) + (n + 2) == q * (n + 2);
      }
    } else {
      var c := s.workers[l.w].cmd;
      var x := if c.kind.Die? then Exited else Awake;
      WeightUpdate(s.workers, l.w, x, n);
      WeightWoken(s.workers[l.w := x], n);
    }
  }

  lemma {:induction false} WorkIsBounded(ids: GroupIds, s: System, ls: seq<Label>)
    requires (forall k :: 0 <= k < |ls| ==> IsWorkerLabel(ls[k])) && !s.p.shutdown && Run(ids, s, ls).Some?
    ensures var t := Run(ids, s, ls).value;
            && |ls| + Rank(t) <= Rank(s) && !t.p.shutdown && |t.p.backlog| <= |s.p.backlog|
            && t.submitted == s.submitted && t.submittedAsap == s.submittedAsap
    decreases |ls|
  {
    if ls != [] {
      WorkIsBounded(ids, s, ls[..|ls|-1]);
      RankDrops(ids, Run(ids, s, ls[..|ls|-1]).value, ls[|ls|-1]);
    }
  }

  lemma ThroughoutSnoc(m: nat, g: nat, n: nat, ls: seq<Label>, l: Label)
    requires Throughout(m, g, n, ls)
    requires match Run(Unbounded, Start(g, n), ls + [l])
             case None => true
             case Some(t) => t.p.nxt - t.p.cur <= m
    ensures Throughout(m, g, n, ls + [l])
  {
    forall k | 0 <= k < |ls| ensures (ls + [l])[..k] == ls[..k] {}
    assert (ls + [l])[..|ls|] == ls;
  }

  /** A step of a worker never widens the window. */
  lemma WindowStep(m: nat, g: nat, n: nat, ls: seq<Label>, l: Label)
    requires n > 0 && Throughout(m, g, n, ls) && IsWorkerLabel(l)
    ensures Throughout(m, g, n, ls + [l])
  {
    var r := Run(Unbounded, Start(g, n), ls);
    assert (ls + [l])[..|ls|] == ls;
    if r.Some? && Enabled(r.value, l) {
      RunInv(g, n, ls);
      GapShrinks(r.value, l);
    }
    ThroughoutSnoc(m, g, n, ls, l);
  }

  lemma {:induction false} WindowContinues(m: nat, g: nat, n: nat, a: seq<Label>, b: seq<Label>)
    requires n > 0 && Throughout(m, g, n, a) && forall k :: 0 <= k < |b| ==> IsWorkerLabel(b[k])
    ensures Throughout(m, g, n, a + b)
    decreases |b|
  {
    if b == [] {
      assert a + b == a;
    } else {
      WindowContinues(m, g, n, a, b[..|b|-1]);
      WindowStep(m, g, n, a + b[..|b|-1], b[|b|-1]);
      assert a + b == (a + b[..|b|-1]) + [b[|b|-1]];
    }
  }

  lemma GapShrinks(s: System, l: Label)
    requires Enabled(s, l) && IsWorkerLabel(l) && s.p.cur <= s.p.nxt
    ensures Step(Unbounded, s, l).p.nxt - Step(Unbounded, s, l).p.cur <= s.p.nxt - s.p.cur
  {
  }

  /** Without further submissions the workers can take only boundedly many steps, and when none of
      them can move every submitted command has been carried out. */
  lemma EveryRunDrains(m: nat, g: nat, n: nat, ls: seq<Label>, u: System, work: seq<Label>, v: System)
    requires n > 0 && Throughout(m, g, n, ls) && Run(Cyclic(m), Start(g % (m + 1), n), ls) == Some(u)
    requires !u.p.shutdown && !DieIn(u.submitted)
    requires (forall k :: 0 <= k < |work| ==> IsWorkerLabel(work[k])) && Run(Cyclic(m), u, work) == Some(v)
    ensures |work| <= Rank(u)
    ensures (forall w :: !Enabled(v, Take(w)) && !Enabled(v, Finish(w))) ==>
              multiset(v.finished) == multiset(u.submitted) + multiset(u.submittedAsap)
  {
    WorkIsBounded(Cyclic(m), u, work);
    WindowContinues(m, g, n, ls, work);
    RunAppend(Cyclic(m), Start(g % (m + 1), n), ls, work);
    RunCore(Cyclic(m), g % (m + 1), n, ls + work);
    if forall w :: !Enabled(v, Take(w)) && !Enabled(v, Finish(w)) {
      forall w | 0 <= w < |v.workers|
        ensures v.workers[w].Asleep?
      {
        assert !Enabled(v, Take(w)) && !Enabled(v, Finish(w));
      }
      NoLostWakeup(m, g, n, ls + work, v);
    }
  }

  // ---------------------------------------------------------------- what opens a group

  /** A command of this kind has been submitted to the group being filled. */
  ghost predicate InNext(s: System, kind: Kind) {
    exists i :: 0 <= i < |s.submitted| && s.submitted[i].kind == kind && s.submitted[i].group == s.p.nxt
  }

  /** `next_group_commands` is the set of kinds submitted to the group being filled. */
  ghost predicate KindsExact(s: System) {
    forall kind :: kind in s.p.kinds <==> InNext(s, kind)
  }

  lemma KindsAdd(s: System, id: nat, kind: Kind, fid: Fid)
    requires GroupInv(s) && KindsExact(s)
    ensures KindsExact(StepAdd(Unbounded, s, id, kind, fid))
  {
    var t := StepAdd(Unbounded, s, id, kind, fid);
    if !kind.IsAsap() {
      assert t.submitted[|s.submitted|].kind == kind && t.submitted[|s.submitted|].group == t.p.nxt;
      forall k
        ensures k in t.p.kinds <==> InNext(t, k)
      {
        assert k in s.p.kinds <==> InNext(s, k);
        if InNext(s, k) && t.p.nxt == s.p.nxt {
          var i :| 0 <= i < |s.submitted| && s.submitted[i].kind == k && s.submitted[i].group == s.p.nxt;
          assert t.submitted[i].kind == k && t.submitted[i].group == t.p.nxt;
        }
      }
    } else {
      KindsSame(s, t);
    }
  }

  lemma KindsSame(s: System, t: System)
    requires KindsExact(s) && t.submitted == s.submitted && t.p.kinds == s.p.kinds && t.p.nxt == s.p.nxt
    ensures KindsExact(t)
  {
    forall k
      ensures k in t.p.kinds <==> InNext(t, k)
    {
      assert k in s.p.kinds <==> InNext(s, k);
    }
  }

  lemma KindsStep(s: System, l: Label)
    requires GroupInv(s) && KindsExact(s) && Enabled(s, l)
    ensures KindsExact(Step(Unbounded, s, l))
  {
    var t := Step(Unbounded, s, l);
    if l.Add? {
      KindsAdd(s, l.id, l.kind, l.fid);
    } else if t.p.nxt == s.p.nxt {
      KindsSame(s, t);
    }
  }

  lemma {:induction false} RunKinds(g: nat, n: nat, ls: seq<Label>)
    requires n > 0 && Run(Unbounded, Start(g, n), ls).Some?
    ensures KindsExact(Run(Unbounded, Start(g, n), ls).value)
    decreases |ls|
  {
    if ls != [] {
      RunKinds(g, n, ls[..|ls|-1]);
      RunInv(g, n, ls[..|ls|-1]);
      KindsStep(Run(Unbounded, Start(g, n), ls[..|ls|-1]).value, ls[|ls|-1]);
    }
  }

  lemma OpensByKind(p: Planner, kind: Kind)
    requires !kind.IsAsap()
    ensures kind.IsExclusive() ==> (OpensGroup(p, kind) <==> p.kinds != {})
    ensures kind.IsSns() ==> (OpensGroup(p, kind) <==> SnsOperation in p.kinds)
    ensures !kind.IsExclusive() && !kind.IsSns() ==> !OpensGroup(p, kind)
  {
  }

  lemma KindsView(t: System)
    requires KindsExact(t)
    ensures t.p.kinds != {} <==> exists k :: InNext(t, k)
  {
    if t.p.kinds != {} {
      var k :| k in t.p.kinds;
      assert InNext(t, k);
    }
  }

  /** Exactly when a command opens a group, in every run in the window: a broadcast or process HA event
      when anything is in the group being filled, an SNS operation when a plain SnsOperation is, and
      nothing else ever.  Otherwise the command joins the group being filled. */
  lemma OpensGroupIff(m: nat, g: nat, n: nat, ls: seq<Label>, t: System, u: System, kind: Kind)
    requires n > 0 && Within(m, Start(g, n), ls) && !kind.IsAsap()
    requires Run(Cyclic(m), Start(g % (m + 1), n), ls) == Some(u) && Run(Unbounded, Start(g, n), ls) == Some(t)
    ensures kind.IsExclusive() ==> (OpensGroup(u.p, kind) <==> exists k :: InNext(t, k))
    ensures kind.IsSns() ==> (OpensGroup(u.p, kind) <==> InNext(t, SnsOperation))
    ensures !kind.IsExclusive() && !kind.IsSns() ==> !OpensGroup(u.p, kind)
    ensures !OpensGroup(u.p, kind) ==> GroupFor(Cyclic(m), u.p, kind) == u.p.nxt == t.p.nxt % (m + 1)
  {
    var _ := Shadow(m, g, n, ls);
    RunKinds(g, n, ls);
    assert u.p.kinds == t.p.kinds && u.p.nxt == t.p.nxt % (m + 1);
    assert SnsOperation in t.p.kinds <==> InNext(t, SnsOperation);
    KindsView(t);
    OpensByKind(u.p, kind);
  }

  /** The documentation of `_assign_group` has a second SNS operation open a new group.  The test
      looks for the class SnsOperation among concrete classes, so two operations of its subclasses
      submitted one after the other run at the same time. */
  lemma SnsOperationsOverlap(ids: GroupIds, g: nat, a: Kind, b: Kind, f: Fid)
    requires a.IsSns() && b.IsSns() && a != SnsOperation && b != SnsOperation
    ensures var r := Run(ids, Start(g, 2), [Add(1, a, f)] + [Add(2, b, f)] + [Take(0)] + [Take(1)]);
            r.Some? && r.value.p.active == [Command(2, b, f, g), Command(1, a, f, g)]
  {
    var l1, l2 := Add(1, a, f), Add(2, b, f);
    var s0 := Start(g, 2);
    BothQueued(ids, g, a, b, f);
    var s1 := Step(ids, s0, l1);
    var s2 := Step(ids, s1, l2);
    RunSnoc(ids, s0, [], s0, l1);
    RunSnoc(ids, s0, [l1], s1, l2);
    BothTaken(ids, s2, Command(1, a, f, g), Command(2, b, f, g));
    RunSnoc(ids, s0, [l1] + [l2], s2, Take(0));
    RunSnoc(ids, s0, [l1] + [l2] + [Take(0)], Step(ids, s2, Take(0)), Take(1));
  }

  lemma SnsJoins(ids: GroupIds, s: System, id: nat, kind: Kind, f: Fid)
    requires kind.IsSns() && SnsOperation !in s.p.kinds && s.workers == [Awake, Awake]
    ensures var t := StepAdd(ids, s, id, kind, f);
            && t.p == s.p.(kinds := s.p.kinds + {kind}, backlog := s.p.backlog + [Command(id, kind, f, s.p.nxt)])
            && t.submitted == s.submitted + [Command(id, kind, f, s.p.nxt)]
            && t.submittedAsap == s.submittedAsap && t.workers == [Awake, Awake]
  {
    assert !kind.IsAsap() && !kind.IsExclusive();
    assert Woken([Awake, Awake]) == [Awake, Awake];
  }

  lemma BothQueued(ids: GroupIds, g: nat, a: Kind, b: Kind, f: Fid)
    requires a.IsSns() && b.IsSns() && a != SnsOperation && b != SnsOperation
    ensures Enabled(Start(g, 2), Add(1, a, f))
    ensures Enabled(Step(ids, Start(g, 2), Add(1, a, f)), Add(2, b, f))
    ensures var t := Step(ids, Step(ids, Start(g, 2), Add(1, a, f)), Add(2, b, f));
            && t.workers == [Awake, Awake]
            && t.p == Planner(g, g, [], map[], {a} + {b}, false, [Command(1, a, f, g), Command(2, b, f, g)], [])
  {
    var s0 := Start(g, 2);
    assert s0.workers == [Awake, Awake];
    SnsJoins(ids, s0, 1, a, f);
    var s1 := StepAdd(ids, s0, 1, a, f);
    assert s1.p.kinds == {a};
    assert s1.submitted == [Command(1, a, f, g)];
    SnsJoins(ids, s1, 2, b, f);
  }

  lemma BothTaken(ids: GroupIds, s: System, c: Command, d: Command)
    requires s.workers == [Awake, Awake] && s.p.backlog == [c, d] && s.p.asap == [] && s.p.active == []
    requires !s.p.shutdown && c.group == s.p.cur == d.group && !c.kind.ProcessEvent? && !d.kind.ProcessEvent?
    ensures Enabled(s, Take(0)) && Enabled(Step(ids, s, Take(0)), Take(1))
    ensures Step(ids, Step(ids, s, Take(0)), Take(1)).p.active == [d, c]
  {
    var t := Step(ids, s, Take(0));
    assert t.p.backlog == [d];
  }
}
