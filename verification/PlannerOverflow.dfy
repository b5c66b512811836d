/** Beyond the window the cyclic planner wedges: the bound of the refinement is exact. */
module PlannerOverflow {
  import opened Fids
  import opened LinkedLists
  import opened Planning
  import opened PlannerSystem
  import opened PlannerRefinement

  /** The first `k` queued commands are current, the next is not, and a later one carries the
      current id again, so the scan in `notify_finished` never finds the group exhausted. */
  ghost predicate StuckAt(p: Planner, k: nat) {
    && k < |p.backlog|
    && (forall i :: 0 <= i < k ==> p.backlog[i].group == p.cur)
    && p.backlog[k].group != p.cur
    && exists j :: k < j < |p.backlog| && p.backlog[j].group == p.cur
  }

  lemma StuckNotDone(p: Planner, k: nat)
    requires StuckAt(p, k)
    ensures HasGroup(p.backlog, p.cur)
  {
  }

  /** `t` is still wedged in the group of `s`, having started just the first `k - j` of the `k`
      current commands. */
  ghost predicate Continues(s: System, k: nat, t: System, j: nat) {
    && j <= k <= |s.p.backlog| && StuckAt(t.p, j) && t.p.cur == s.p.cur
    && t.started == s.started + s.p.backlog[..k - j]
    && s.p.backlog[k - j..] <= t.p.backlog
  }

  lemma StuckSame(s: System, k: nat, t: System)
    requires StuckAt(s.p, k) && t.p.cur == s.p.cur && t.started == s.started && s.p.backlog <= t.p.backlog
    ensures Continues(s, k, t, k)
  {
    var j :| k < j < |s.p.backlog| && s.p.backlog[j].group == s.p.cur;
    assert t.p.backlog[j] == s.p.backlog[j];
    assert s.p.backlog[..0] == [] && s.p.backlog[0..] == s.p.backlog;
  }

  lemma StuckTaken(s: System, k: nat, t: System)
    requires StuckAt(s.p, k) && k > 0 && t.p.cur == s.p.cur
    requires t.started == s.started + [s.p.backlog[0]] && t.p.backlog == s.p.backlog[1..]
    ensures Continues(s, k, t, k - 1)
  {
    var j :| k < j < |s.p.backlog| && s.p.backlog[j].group == s.p.cur;
    assert t.p.backlog[j - 1] == s.p.backlog[j];
    assert s.p.backlog[..1] == [s.p.backlog[0]];
  }

  /** A step of a wedged planner leaves it wedged and starts at most one of the current commands. */
  lemma StuckStep(ids: GroupIds, s: System, l: Label, k: nat) returns (j: nat)
    requires Enabled(s, l) && StuckAt(s.p, k)
    ensures Continues(s, k, Step(ids, s, l), j)
  {
    var t := Step(ids, s, l);
    if l.Take? && Choose(s.p).FromBacklog? {
      j := k - 1;
      StuckTaken(s, k, t);
    } else {
      if l.Finish? {
        StuckNotDone(s.p, k);
      }
      j := k;
      StuckSame(s, k, t);
    }
  }

  lemma ContinuesOn(s: System, k: nat, r: System, q: nat, t: System, j: nat)
    requires Continues(s, k, r, q) && Continues(r, q, t, j)
    ensures Continues(s, k, t, j)
  {
    var b := s.p.backlog;
    assert r.p.backlog[..q - j] == b[k - q..k - j];
    assert b[..k - q] + b[k - q..k - j] == b[..k - j];
    assert b[k - j..] == b[k - q..][q - j..];
  }

  /** Over any continuation: the group never changes again and only the commands of the current
      group at the head of the backlog are ever started. */
  lemma {:induction false} StuckForever(ids: GroupIds, s: System, k: nat, ls: seq<Label>) returns (j: nat)
    requires StuckAt(s.p, k) && Run(ids, s, ls).Some?
    ensures Continues(s, k, Run(ids, s, ls).value, j)
    decreases |ls|
  {
    if ls == [] {
      j := k;
      StuckSame(s, k, s);
    } else {
      var q := StuckForever(ids, s, k, ls[..|ls|-1]);
      var r := Run(ids, s, ls[..|ls|-1]).value;
      j := StuckStep(ids, r, ls[|ls|-1], q);
      ContinuesOn(s, k, r, q, Step(ids, r, ls[|ls|-1]), j);
    }
  }

  /** Index of the first command outside group `g`. */
  function FirstOutside(cs: seq<Command>, g: nat): (k: nat)
    ensures k <= |cs| && forall i :: 0 <= i < k ==> cs[i].group == g
    ensures k < |cs| ==> cs[k].group != g
  {
    if cs == [] || cs[0].group != g then 0 else 1 + FirstOutside(cs[1..], g)
  }

  /** One group too many ahead and the wrapped planner is wedged. */
  lemma OneTooMany(m: nat, s: System) returns (k: nat)
    requires m >= 1 && GroupInv(s) && s.p.nxt - s.p.cur == m + 1
    ensures k < |s.p.backlog| && (forall i :: 0 <= i < k ==> s.p.backlog[i].group == s.p.cur)
    ensures s.p.backlog[k].group == s.p.cur + 1
    ensures StuckAt(WrapPlanner(m, s.p), k)
  {
    BacklogView(s);
    var b, cur := s.p.backlog, s.p.cur;
    k := FirstOutside(b, cur);
    assert HasGroup(b, cur + 1);
    var i :| 0 <= i < |b| && b[i].group == cur + 1;
    assert b[k].group <= b[i].group;
    IdsAgree(cur, cur + 1, m);
    assert HasGroup(b, cur + m + 1);
    var j :| 0 <= j < |b| && b[j].group == cur + m + 1;
    FullTurn(cur, m);
    var q := WrapPlanner(m, s.p);
    assert q.backlog[j].group == q.cur;
  }

  lemma GapGrowsByOne(s: System, l: Label)
    requires GroupInv(s) && Enabled(s, l)
    ensures var t := Step(Unbounded, s, l);
            t.p.nxt - t.p.cur <= s.p.nxt - s.p.cur + 1
  {
  }

  /** After `i` steps the run is wedged with `k` current commands left, and it stays so up to `u`. */
  ghost predicate WedgedAt(m: nat, g: nat, n: nat, ls: seq<Label>, u: System, i: nat, k: nat, j: nat) {
    && i <= |ls| && Run(Cyclic(m), Start(g % (m + 1), n), ls[..i]).Some?
    && var s := Run(Cyclic(m), Start(g % (m + 1), n), ls[..i]).value;
       StuckAt(s.p, k) && Continues(s, k, u, j)
  }

  /** Every run of the real planner either stays in the window, and then follows the unbounded
      planner, or leaves it, and is wedged from that very step on. */
  lemma Dichotomy(m: nat, g: nat, n: nat, ls: seq<Label>, u: System)
    requires m >= 1 && n > 0 && Run(Cyclic(m), Start(g % (m + 1), n), ls) == Some(u)
    ensures Within(m, Start(g, n), ls) ==> WrapRun(m, Run(Unbounded, Start(g, n), ls)) == Some(u)
    ensures !Within(m, Start(g, n), ls) ==> exists i, k, j :: WedgedAt(m, g, n, ls, u, i, k, j)
  {
    if Within(m, Start(g, n), ls) {
      RunRefines(m, g, n, ls);
    } else {
      assert ls[..|ls|] == ls;
      var i := FirstViolation(m, g, n, ls, |ls|);
      var a, b := ls[..i], ls[i..];
      assert ls == a + b;
      RunRefines(m, g, n, a);
      RunInv(g, n, a);
      var t := Run(Unbounded, Start(g, n), a).value;
      var k := OneTooMany(m, t);
      RunAppend(Cyclic(m), Start(g % (m + 1), n), a, b);
      var j := StuckForever(Cyclic(m), Wrap(m, t), k, b);
      assert WedgedAt(m, g, n, ls, u, i, k, j);
    }
  }

  /** The first state out of the window is exactly one group beyond it. */
  lemma {:induction false} FirstViolation(m: nat, g: nat, n: nat, ls: seq<Label>, j: nat) returns (i: nat)
    requires n > 0 && j <= |ls| && !Within(m, Start(g, n), ls[..j])
    ensures i < j && Within(m, Start(g, n), ls[..i])
    ensures Run(Unbounded, Start(g, n), ls[..i]).Some?
    ensures var t := Run(Unbounded, Start(g, n), ls[..i]).value; t.p.nxt - t.p.cur == m + 1
    decreases j
  {
    var s := Start(g, n);
    assert j > 0;
    if !Within(m, s, ls[..j-1]) {
      i := FirstViolation(m, g, n, ls, j - 1);
    } else {
      i := j - 1;
      forall k | 0 <= k < j ensures ls[..j][..k] == ls[..k] {}
      forall k | 0 <= k < j - 1 ensures ls[..j-1][..k] == ls[..k] {}
      var t := Run(Unbounded, s, ls[..i]).value;
      assert t.p.nxt - t.p.cur > m;
      if i > 0 {
        assert ls[..i][..i-1] == ls[..i-1];
        assert Run(Unbounded, s, ls[..i-1]).Some?;
        RunInv(g, n, ls[..i-1]);
        GapGrowsByOne(Run(Unbounded, s, ls[..i-1]).value, ls[..i][i-1]);
      }
    }
  }

  // ---------------------------------------------------------------- a wedged run for every bound

  function Broadcasts(k: nat): (ls: seq<Label>)
    ensures |ls| == k
    ensures forall i :: 0 <= i < k ==> ls[i] == Add(i + 1, BroadcastHAStates, Fid(0, 0))
  {
    seq(k, i requires i >= 0 => Add(i + 1, BroadcastHAStates, Fid(0, 0)))
  }

  function Queued(k: nat): (cs: seq<Command>)
    ensures |cs| == k
    ensures forall i :: 0 <= i < k ==> cs[i] == Command(i + 1, BroadcastHAStates, Fid(0, 0), i)
  {
    seq(k, i requires i >= 0 => Command(i + 1, BroadcastHAStates, Fid(0, 0), i))
  }

  /** One worker and `k` broadcasts waiting, each in a group of its own. */
  function Crowd(k: nat): System {
    System(Planner(0, if k == 0 then 0 else k - 1, [], map[],
                   if k == 0 then {} else {BroadcastHAStates}, false, Queued(k), []),
           [Awake], Queued(k), [], [], [], [])
  }

  lemma {:induction false} CrowdReached(k: nat)
    ensures Run(Unbounded, Start(0, 1), Broadcasts(k)) == Some(Crowd(k))
  {
    if k == 0 {
      assert Start(0, 1).workers == [Awake];
    } else {
      CrowdReached(k - 1);
      var ls := Broadcasts(k);
      assert ls[..k-1] == Broadcasts(k - 1);
      assert Queued(k) == Queued(k - 1) + [Queued(k)[k - 1]];
      var s := Crowd(k - 1);
      assert Enabled(s, ls[k - 1]);
      assert Woken([Awake]) == [Awake];
      assert Step(Unbounded, s, ls[k - 1]) == Crowd(k);
    }
  }

  /** For every MAX_GROUP_ID from 1 on, MAX_GROUP_ID + 2 queued broadcasts and one worker reach a
      state where nothing runs, commands are waiting, and no continuation ever starts one. */
  lemma QueueOfBroadcastsWedges(m: nat) returns (ls: seq<Label>, u: System)
    requires m >= 1
    ensures ls == Broadcasts(m + 2) + [Take(0), Finish(0)] && Run(Cyclic(m), Start(0, 1), ls) == Some(u)
    ensures u.p.active == [] && |u.p.backlog| == m + 1
    ensures forall more :: Run(Cyclic(m), u, more).Some? ==>
                             var v := Run(Cyclic(m), u, more).value;
                             v.started == u.started && u.p.backlog <= v.p.backlog
  {
    var a := Broadcasts(m + 2);
    ls := a + [Take(0), Finish(0)];
    var s := Wrap(m, Crowd(m + 2));
    CrowdWraps(m);
    RunAppend(Cyclic(m), Start(0, 1), a, [Take(0), Finish(0)]);
    var t := Step(Cyclic(m), s, Take(0));
    u := Step(Cyclic(m), t, Finish(0));
    TwoSteps(m, s);
    WedgedAfterOne(m, s);
    forall more | Run(Cyclic(m), u, more).Some?
      ensures var v := Run(Cyclic(m), u, more).value;
              v.started == u.started && u.p.backlog <= v.p.backlog
    {
      var j := StuckForever(Cyclic(m), u, 0, more);
    }
  }

  /** The crowd of m + 2 is reached by the cyclic planner too: its last broadcast is the first to
      break the window. */
  lemma CrowdWraps(m: nat)
    ensures Run(Cyclic(m), Start(0, 1), Broadcasts(m + 2)) == Some(Wrap(m, Crowd(m + 2)))
  {
    var a := Broadcasts(m + 2);
    forall k | 0 <= k < |a|
      ensures Run(Unbounded, Start(0, 1), a[..k]) == Some(Crowd(k))
    {
      assert a[..k] == Broadcasts(k);
      CrowdReached(k);
    }
    CrowdReached(m + 2);
    assert Within(m, Start(0, 1), a);
    assert 0 % (m + 1) == 0;
    RunRefines(m, 0, 1, a);
  }

  lemma TwoSteps(m: nat, s: System)
    requires s == Wrap(m, Crowd(m + 2))
    ensures Enabled(s, Take(0)) && Enabled(Step(Cyclic(m), s, Take(0)), Finish(0))
    ensures Run(Cyclic(m), s, [Take(0), Finish(0)])
         == Some(Step(Cyclic(m), Step(Cyclic(m), s, Take(0)), Finish(0)))
  {
    assert s.p.backlog[0].group == 0 % (m + 1) == s.p.cur;
    var l2 := [Take(0), Finish(0)];
    assert l2[..1] == [Take(0)];
    assert [Take(0)][..0] == [];
    assert Run(Cyclic(m), s, []) == Some(s);
    assert Run(Cyclic(m), s, [Take(0)]) == Some(Step(Cyclic(m), s, Take(0)));
  }

  lemma WedgedAfterOne(m: nat, s: System)
    requires m >= 1 && s == Wrap(m, Crowd(m + 2))
    requires Enabled(s, Take(0)) && Enabled(Step(Cyclic(m), s, Take(0)), Finish(0))
    ensures var u := Step(Cyclic(m), Step(Cyclic(m), s, Take(0)), Finish(0));
            u.p.active == [] && |u.p.backlog| == m + 1 && StuckAt(u.p, 0)
  {
    var b := s.p.backlog;
    FullTurn(0, m);
    IdsAgree(0, 1, m);
    assert b[0].group == b[m + 1].group == s.p.cur && b[1].group != s.p.cur;
    var t := Step(Cyclic(m), s, Take(0));
    assert t.p.backlog == b[1..] && t.p.backlog[m].group == t.p.cur;
    assert t.p.active == [b[0]];
    assert RemoveFirst([b[0]], b[0]) == [];
  }
}
