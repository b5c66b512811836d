/** The planner with cyclic group numbers refines the planner with unbounded ones, as long as at
    most `max` groups separate the current group from the one being filled. */
module PlannerRefinement {
  import opened Arithmetic
  import opened Fids
  import opened LinkedLists
  import opened Planning
  import opened PlannerSystem

  // ---------------------------------------------------------------- wrapped group numbers

  lemma SameMod(a: nat, b: nat, n: nat)
    requires n > 0 && a <= b && a % n == b % n
    ensures exists k: nat :: b == a + k * n
  {
    var k := b / n - a / n;
    assert b - a == k * n by {
      assert a == n * (a / n) + a % n;
      assert b == n * (b / n) + b % n;
    }
    MulGrows(k, n);
    assert b == a + k * n;
  }

  /** Two group numbers at most `m` apart have equal ids only when they are equal. */
  lemma IdsAgree(a: nat, b: nat, m: nat)
    requires a <= b <= a + m
    ensures a % (m + 1) == b % (m + 1) <==> a == b
  {
    if a % (m + 1) == b % (m + 1) {
      SameMod(a, b, m + 1);
      var k: nat :| b == a + k * (m + 1);
      MulGrows(k, m + 1);
    }
  }

  /** `_get_increased_group` counts modulo MAX_GROUP_ID + 1. */
  lemma IncreasedIsModular(g: nat, m: nat)
    ensures Increased(Cyclic(m), g % (m + 1)) == (g + 1) % (m + 1)
  {
    var n := m + 1;
    var r := g % n;
    assert g == n * (g / n) + r;
    if r + 1 < n {
      ModUnique(g + 1, n, g / n, r + 1);
    } else {
      assert g + 1 == n * (g / n + 1) + 0;
      ModUnique(g + 1, n, g / n + 1, 0);
    }
  }

  lemma FullTurn(a: nat, m: nat)
    ensures (a + m + 1) % (m + 1) == a % (m + 1)
  {
    var n := m + 1;
    assert a == n * (a / n) + a % n;
    assert a + n == n * (a / n + 1) + a % n;
    ModUnique(a + n, n, a / n + 1, a % n);
  }

  function WrapCmd(m: nat, c: Command): Command {
    c.(group := c.group % (m + 1))
  }

  function WrapAll(m: nat, cs: seq<Command>): (r: seq<Command>)
    ensures |r| == |cs| && forall i :: 0 <= i < |cs| ==> r[i] == WrapCmd(m, cs[i])
  {
    seq(|cs|, i requires 0 <= i < |cs| => WrapCmd(m, cs[i]))
  }

  function WrapPlanner(m: nat, p: Planner): Planner {
    p.(cur := p.cur % (m + 1), nxt := p.nxt % (m + 1), active := WrapAll(m, p.active),
       backlog := WrapAll(m, p.backlog), asap := WrapAll(m, p.asap))
  }

  function WrapWorker(m: nat, w: Worker): Worker {
    if w.Busy? then Busy(WrapCmd(m, w.cmd)) else w
  }

  function WrapWorkers(m: nat, ws: seq<Worker>): (r: seq<Worker>)
    ensures |r| == |ws| && forall i :: 0 <= i < |ws| ==> r[i] == WrapWorker(m, ws[i])
  {
    seq(|ws|, i requires 0 <= i < |ws| => WrapWorker(m, ws[i]))
  }

  /** The unbounded system with every group number reduced to its id. */
  function Wrap(m: nat, s: System): System {
    System(WrapPlanner(m, s.p), WrapWorkers(m, s.workers), WrapAll(m, s.submitted),
           WrapAll(m, s.submittedAsap), WrapAll(m, s.started), WrapAll(m, s.startedAsap),
           WrapAll(m, s.finished))
  }

  // ---------------------------------------------------------------- the operations commute with wrapping

  lemma WrapPush(m: nat, cs: seq<Command>, c: Command)
    ensures WrapAll(m, cs + [c]) == WrapAll(m, cs) + [WrapCmd(m, c)]
    ensures WrapAll(m, [c] + cs) == [WrapCmd(m, c)] + WrapAll(m, cs)
  {
  }

  lemma WrapTail(m: nat, cs: seq<Command>)
    requires cs != []
    ensures WrapAll(m, cs[1..]) == WrapAll(m, cs)[1..]
  {
  }

  lemma {:induction false} WrapRemove(m: nat, cs: seq<Command>, c: Command)
    requires forall i :: 0 <= i < |cs| && cs[i].id == c.id ==> cs[i] == c
    ensures RemoveFirst(WrapAll(m, cs), WrapCmd(m, c)) == WrapAll(m, RemoveFirst(cs, c))
    ensures WrapCmd(m, c) in WrapAll(m, cs) <==> c in cs
  {
    if cs != [] {
      WrapRemove(m, cs[1..], c);
      WrapTail(m, cs);
      assert WrapAll(m, cs)[0] == WrapCmd(m, cs[0]);
      if cs[0] != c {
        WrapPush(m, RemoveFirst(cs[1..], c), cs[0]);
      }
    }
  }

  lemma WrapHasGroup(m: nat, p: Planner)
    requires forall i :: 0 <= i < |p.backlog| ==> p.cur <= p.backlog[i].group <= p.cur + m
    ensures HasGroup(WrapAll(m, p.backlog), p.cur % (m + 1)) <==> HasGroup(p.backlog, p.cur)
    ensures p.backlog != [] ==> (p.backlog[0].group % (m + 1) == p.cur % (m + 1) <==> p.backlog[0].group == p.cur)
  {
    var b := p.backlog;
    forall i | 0 <= i < |b|
      ensures WrapAll(m, b)[i].group == p.cur % (m + 1) <==> b[i].group == p.cur
    {
      IdsAgree(p.cur, b[i].group, m);
    }
    if HasGroup(b, p.cur) {
      var i :| 0 <= i < |b| && b[i].group == p.cur;
      assert WrapAll(m, b)[i].group == p.cur % (m + 1);
    }
    if b != [] {
      IdsAgree(p.cur, b[0].group, m);
    }
  }

  lemma WrapAdd(m: nat, p: Planner, id: nat, kind: Kind, fid: Fid)
    ensures Submit(Cyclic(m), WrapPlanner(m, p), id, kind, fid) == WrapCmd(m, Submit(Unbounded, p, id, kind, fid))
    ensures Planning.Add(Cyclic(m), WrapPlanner(m, p), id, kind, fid)
         == WrapPlanner(m, Planning.Add(Unbounded, p, id, kind, fid))
  {
    IncreasedIsModular(p.nxt, m);
    var c := Submit(Unbounded, p, id, kind, fid);
    WrapPush(m, p.backlog, c);
    WrapPush(m, p.asap, c);
  }

  lemma WrapActivate(m: nat, p: Planner, c: Command)
    ensures Activate(WrapPlanner(m, p), WrapCmd(m, c)) == WrapPlanner(m, Activate(p, c))
  {
    WrapPush(m, p.active, c);
  }

  ghost predicate InWindow(m: nat, p: Planner) {
    && p.cur <= p.nxt <= p.cur + m
    && forall i :: 0 <= i < |p.backlog| ==> p.cur <= p.backlog[i].group <= p.nxt
  }

  lemma WrapTake(m: nat, p: Planner)
    requires InWindow(m, p)
    ensures Choose(WrapPlanner(m, p)) == Choose(p)
    ensures !Choose(p).Nothing? ==> Chosen(WrapPlanner(m, p)) == WrapCmd(m, Chosen(p))
    ensures Taken(WrapPlanner(m, p)) == WrapPlanner(m, Taken(p))
  {
    WrapHasGroup(m, p);
    if Choose(p).FromAsap? {
      WrapTail(m, p.asap);
      WrapActivate(m, p.(asap := p.asap[1..]), p.asap[0]);
    } else if Choose(p).FromBacklog? {
      WrapTail(m, p.backlog);
      WrapActivate(m, p.(backlog := p.backlog[1..]), p.backlog[0]);
    }
  }

  lemma WrapFinish(m: nat, p: Planner, c: Command)
    requires InWindow(m, p)
    requires forall i :: 0 <= i < |p.active| && p.active[i].id == c.id ==> p.active[i] == c
    ensures Finished(Cyclic(m), WrapPlanner(m, p), WrapCmd(m, c)) == WrapPlanner(m, Finished(Unbounded, p, c))
    ensures FinishWakes(WrapPlanner(m, p), WrapCmd(m, c)) <==> FinishWakes(p, c)
    ensures WrapCmd(m, c) in WrapAll(m, p.active) <==> c in p.active
  {
    WrapRemove(m, p.active, c);
    var q := Retire(p, c);
    assert Retire(WrapPlanner(m, p), WrapCmd(m, c)) == WrapPlanner(m, q);
    WrapHasGroup(m, q);
    IncreasedIsModular(p.cur, m);
    IdsAgree(p.cur, p.nxt, m);
  }

  lemma WrapIds(m: nat, cs: seq<Command>, id: nat)
    ensures IdIn(WrapAll(m, cs), id) <==> IdIn(cs, id)
  {
    if IdIn(cs, id) {
      var i :| 0 <= i < |cs| && cs[i].id == id;
      assert WrapAll(m, cs)[i].id == id;
    }
  }

  lemma WrapEnabled(m: nat, s: System, l: Label)
    ensures Enabled(Wrap(m, s), l) <==> Enabled(s, l)
  {
    if l.Add? {
      WrapIds(m, s.submitted, l.id);
      WrapIds(m, s.submittedAsap, l.id);
    }
  }

  lemma InvInWindow(m: nat, s: System)
    requires GroupInv(s) && s.p.nxt - s.p.cur <= m
    ensures InWindow(m, s.p)
  {
    BacklogView(s);
  }

  /** One step of the cyclic planner is one step of the unbounded planner, wrapped. */
  lemma StepRefines(m: nat, s: System, l: Label)
    requires Inv(s) && Enabled(s, l) && s.p.nxt - s.p.cur <= m
    ensures Enabled(Wrap(m, s), l)
    ensures Step(Cyclic(m), Wrap(m, s), l) == Wrap(m, Step(Unbounded, s, l))
  {
    WrapEnabled(m, s, l);
    InvInWindow(m, s);
    match l {
      case Add(id, kind, fid) => RefineAdd(m, s, id, kind, fid);
      case Take(w) => RefineTake(m, s, w);
      case Finish(w) => RefineFinish(m, s, w);
      case Shutdown => assert WrapWorkers(m, Woken(s.workers)) == Woken(WrapWorkers(m, s.workers));
    }
  }

  lemma RefineAdd(m: nat, s: System, id: nat, kind: Kind, fid: Fid)
    ensures StepAdd(Cyclic(m), Wrap(m, s), id, kind, fid) == Wrap(m, StepAdd(Unbounded, s, id, kind, fid))
  {
    var c := Submit(Unbounded, s.p, id, kind, fid);
    WrapAdd(m, s.p, id, kind, fid);
    WrapPush(m, s.submitted, c);
    WrapPush(m, s.submittedAsap, c);
    assert WrapWorkers(m, Woken(s.workers)) == Woken(WrapWorkers(m, s.workers));
  }

  lemma RefineTake(m: nat, s: System, w: nat)
    requires InWindow(m, s.p) && w < |s.workers|
    ensures StepTake(Wrap(m, s), w) == Wrap(m, StepTake(s, w))
  {
    WrapTake(m, s.p);
    var t := StepTake(s, w);
    assert WrapWorkers(m, t.workers) == WrapWorkers(m, s.workers)[w := WrapWorker(m, t.workers[w])];
    if !Choose(s.p).Nothing? {
      WrapPush(m, s.started, Chosen(s.p));
      WrapPush(m, s.startedAsap, Chosen(s.p));
    }
  }

  lemma RefineFinish(m: nat, s: System, w: nat)
    requires Inv(s) && InWindow(m, s.p) && w < |s.workers| && s.workers[w].Busy?
    ensures StepFinish(Cyclic(m), Wrap(m, s), w) == Wrap(m, StepFinish(Unbounded, s, w))
  {
    var c := s.workers[w].cmd;
    forall i | 0 <= i < |s.p.active| && s.p.active[i].id == c.id
      ensures s.p.active[i] == c
    {
      QueuedNotActive(s, i);
      assert c in s.p.active;
    }
    WrapFinish(m, s.p, c);
    WrapPush(m, s.finished, c);
    var ws := s.workers[w := if c.kind.Die? then Exited else Awake];
    assert WrapWorkers(m, ws) == WrapWorkers(m, s.workers)[w := if c.kind.Die? then Exited else Awake];
    assert WrapWorkers(m, Woken(ws)) == Woken(WrapWorkers(m, ws));
  }

  // ---------------------------------------------------------------- runs

  /** Along the unbounded run of `ls`, up to but excluding its last state, the window holds. */
  ghost predicate Within(m: nat, s: System, ls: seq<Label>) {
    forall k :: 0 <= k < |ls| ==>
                  match Run(Unbounded, s, ls[..k])
                  case None => true
                  case Some(t) => t.p.nxt - t.p.cur <= m
  }

  function WrapRun(m: nat, r: Option<System>): Option<System> {
    match r
    case None => None
    case Some(t) => Some(Wrap(m, t))
  }

  lemma WithinPrefix(m: nat, s: System, ls: seq<Label>, k: nat)
    requires Within(m, s, ls) && k <= |ls|
    ensures Within(m, s, ls[..k])
  {
    forall j | 0 <= j < k ensures ls[..k][..j] == ls[..j] {}
  }

  /** The wrapped-id planner and the unbounded planner run in lock step. */
  lemma {:induction false} RunRefines(m: nat, g: nat, n: nat, ls: seq<Label>)
    requires n > 0 && Within(m, Start(g, n), ls)
    ensures Run(Cyclic(m), Start(g % (m + 1), n), ls) == WrapRun(m, Run(Unbounded, Start(g, n), ls))
    decreases |ls|
  {
    var s := Start(g, n);
    if ls == [] {
      assert Start(g % (m + 1), n) == Wrap(m, s);
    } else {
      var front := ls[..|ls|-1];
      WithinPrefix(m, s, ls, |ls| - 1);
      RunRefines(m, g, n, front);
      if Run(Unbounded, s, front).Some? {
        var t := Run(Unbounded, s, front).value;
        RunInv(g, n, front);
        WrapEnabled(m, t, ls[|ls|-1]);
        if Enabled(t, ls[|ls|-1]) {
          StepRefines(m, t, ls[|ls|-1]);
        }
      }
    }
  }
}
