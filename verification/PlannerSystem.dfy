/** The planner together with its threads: every interleaving of adders and workers.

    A label names the thread that runs its next critical section; a run is a sequence of labels.
    Submission, start and completion histories are recorded so that claims about whole runs can be
    stated on the state a run reaches. */
module PlannerSystem {
  import opened Fids
  import opened LinkedLists
  import opened Planning

  /** A worker is about to ask for work, asleep on the condition, running a command, or gone. */
  datatype Worker = Awake | Asleep | Busy(cmd: Command) | Exited

  datatype System = System(
    p: Planner, workers: seq<Worker>,
    submitted: seq<Command>, submittedAsap: seq<Command>,
    started: seq<Command>, startedAsap: seq<Command>, finished: seq<Command>)

  datatype Label = Add(id: nat, kind: Kind, fid: Fid) | Take(w: nat) | Finish(w: nat) | Shutdown

  /** `notifyAll`. */
  function Woken(ws: seq<Worker>): (r: seq<Worker>)
    ensures |r| == |ws|
    ensures forall w :: 0 <= w < |ws| ==> r[w] == if ws[w].Asleep? then Awake else ws[w]
  {
    seq(|ws|, w requires 0 <= w < |ws| => if ws[w].Asleep? then Awake else ws[w])
  }

  predicate IdIn(cs: seq<Command>, id: nat) {
    exists i :: 0 <= i < |cs| && cs[i].id == id
  }

  /** Each submitted message is an object of its own. */
  predicate Enabled(s: System, l: Label) {
    match l
    case Add(id, _, _) => id != POISON_ID && !IdIn(s.submitted, id) && !IdIn(s.submittedAsap, id)
    case Take(w) => w < |s.workers| && s.workers[w].Awake?
    case Finish(w) => w < |s.workers| && s.workers[w].Busy?
    case Shutdown => true
  }

  function StepAdd(ids: GroupIds, s: System, id: nat, kind: Kind, fid: Fid): System {
    var c := Submit(ids, s.p, id, kind, fid);
    s.(p := Planning.Add(ids, s.p, id, kind, fid), workers := Woken(s.workers),
       submitted := if kind.IsAsap() then s.submitted else s.submitted + [c],
       submittedAsap := if kind.IsAsap() then s.submittedAsap + [c] else s.submittedAsap)
  }

  function StepTake(s: System, w: nat): System
    requires w < |s.workers|
  {
    var choice := Choose(s.p);
    if choice.Nothing? then s.(workers := s.workers[w := Asleep])
    else
      s.(p := Taken(s.p), workers := s.workers[w := Busy(Chosen(s.p))],
         started := if choice.FromBacklog? then s.started + [Chosen(s.p)] else s.started,
         startedAsap := if choice.FromAsap? then s.startedAsap + [Chosen(s.p)] else s.startedAsap)
  }

  /** A worker that ran a Die leaves; any other asks for more work. */
  function StepFinish(ids: GroupIds, s: System, w: nat): System
    requires w < |s.workers| && s.workers[w].Busy?
  {
    var c := s.workers[w].cmd;
    var ws := s.workers[w := if c.kind.Die? then Exited else Awake];
    s.(p := Finished(ids, s.p, c),
       workers := if FinishWakes(s.p, c) then Woken(ws) else ws,
       finished := if c in s.p.active then s.finished + [c] else s.finished)
  }

  function Step(ids: GroupIds, s: System, l: Label): System
    requires Enabled(s, l)
  {
    match l
    case Add(id, kind, fid) => StepAdd(ids, s, id, kind, fid)
    case Take(w) => StepTake(s, w)
    case Finish(w) => StepFinish(ids, s, w)
    case Shutdown => s.(p := s.p.(shutdown := true), workers := Woken(s.workers))
  }

  function Start(g: nat, n: nat): System {
    System(Initial(g), seq(n, _ => Awake), [], [], [], [], [])
  }

  /** The state reached by the steps `ls`, None when one of them is not enabled. */
  function Run(ids: GroupIds, s: System, ls: seq<Label>): Option<System> {
    if ls == [] then Some(s)
    else
      match Run(ids, s, ls[..|ls|-1])
      case None => None
      case Some(t) => if Enabled(t, ls[|ls|-1]) then Some(Step(ids, t, ls[|ls|-1])) else None
  }

  lemma RunSnoc(ids: GroupIds, s: System, ls: seq<Label>, t: System, l: Label)
    requires Run(ids, s, ls) == Some(t) && Enabled(t, l)
    ensures Run(ids, s, ls + [l]) == Some(Step(ids, t, l))
  {
    assert (ls + [l])[..|ls|] == ls;
  }

  lemma {:induction false} RunAppend(ids: GroupIds, s: System, a: seq<Label>, b: seq<Label>)
    requires Run(ids, s, a).Some?
    ensures Run(ids, s, a + b) == Run(ids, Run(ids, s, a).value, b)
    decreases |b|
  {
    if b == [] {
      assert a + b == a;
    } else {
      var last := b[|b|-1];
      RunAppend(ids, s, a, b[..|b|-1]);
      assert (a + b)[..|a + b|-1] == a + b[..|b|-1];
      assert (a + b)[|a + b|-1] == last;
    }
  }

  // ---------------------------------------------------------------- the group invariant

  predicate Sorted(cs: seq<Command>) {
    forall i, j :: 0 <= i < j < |cs| ==> cs[i].group <= cs[j].group
  }

  /** Exclusive commands open their group. */
  predicate ExclusiveOpens(cs: seq<Command>) {
    forall i, j :: 0 <= i < j < |cs| && cs[j].kind.IsExclusive() ==> cs[i].group < cs[j].group
  }

  ghost predicate Covered(cs: seq<Command>, lo: nat, hi: nat) {
    forall g: nat :: lo < g <= hi ==> HasGroup(cs, g)
  }

  ghost predicate GroupInv(s: System) {
    var p := s.p;
    && p.cur <= p.nxt
    && s.submitted == s.started + p.backlog
    && Sorted(s.submitted)
    && ExclusiveOpens(s.submitted)
    && (forall i :: 0 <= i < |s.submitted| ==> s.submitted[i].group <= p.nxt)
    && (forall i :: 0 <= i < |p.backlog| ==> p.cur <= p.backlog[i].group)
    && Covered(p.backlog, p.cur, p.nxt)
    && (p.kinds == {} ==> p.cur == p.nxt &&
                          forall i :: 0 <= i < |s.submitted| ==> s.submitted[i].group < p.nxt)
    && (p.kinds != {} && p.active == [] ==> p.backlog != [] && p.backlog[0].group == p.cur)
  }

  /** The queued commands are the unstarted tail of the submissions. */
  lemma BacklogView(s: System)
    requires GroupInv(s)
    ensures Sorted(s.p.backlog)
    ensures forall i :: 0 <= i < |s.p.backlog| ==> s.p.cur <= s.p.backlog[i].group <= s.p.nxt
    ensures s.p.kinds == {} ==> s.p.backlog == []
  {
    var b, n := s.p.backlog, |s.started|;
    forall i | 0 <= i < |b|
      ensures b[i] == s.submitted[n + i]
    {
    }
    if b != [] {
      assert b[0] == s.submitted[n];
    }
  }

  lemma GroupInvAdd(s: System, id: nat, kind: Kind, fid: Fid)
    requires GroupInv(s)
    ensures GroupInv(StepAdd(Unbounded, s, id, kind, fid))
  {
    var t := StepAdd(Unbounded, s, id, kind, fid);
    if !kind.IsAsap() {
      BacklogView(s);
      var c := Submit(Unbounded, s.p, id, kind, fid);
      assert t.submitted == s.started + (s.p.backlog + [c]);
      forall g: nat | s.p.cur < g <= t.p.nxt
        ensures HasGroup(t.p.backlog, g)
      {
        if g <= s.p.nxt {
          assert HasGroup(s.p.backlog, g);
          var i :| 0 <= i < |s.p.backlog| && s.p.backlog[i].group == g;
          assert t.p.backlog[i].group == g;
        } else {
          assert t.p.backlog[|s.p.backlog|].group == g;
        }
      }
    }
  }

  lemma GroupInvTake(s: System, w: nat)
    requires GroupInv(s) && w < |s.workers|
    ensures GroupInv(StepTake(s, w))
  {
    if Choose(s.p).FromBacklog? {
      var t := StepTake(s, w);
      assert t.submitted == t.started + t.p.backlog;
      forall g: nat | s.p.cur < g <= t.p.nxt
        ensures HasGroup(t.p.backlog, g)
      {
        assert HasGroup(s.p.backlog, g);
        var i :| 0 <= i < |s.p.backlog| && s.p.backlog[i].group == g;
        assert t.p.backlog[i - 1].group == g;
      }
    }
  }

  lemma GroupInvFinish(s: System, w: nat)
    requires GroupInv(s) && w < |s.workers| && s.workers[w].Busy?
    ensures GroupInv(StepFinish(Unbounded, s, w))
  {
    var q := Retire(s.p, s.workers[w].cmd);
    BacklogView(s);
    if GroupDone(q) {
      forall i | 0 <= i < |q.backlog|
        ensures q.cur < q.backlog[i].group
      {
        assert q.backlog[i].group != q.cur;
      }
      if q.cur < q.nxt {
        assert HasGroup(q.backlog, q.cur + 1);
      }
    } else if q.active == [] {
      var i :| 0 <= i < |q.backlog| && q.backlog[i].group == q.cur;
      assert q.backlog[0].group <= q.backlog[i].group;
    }
  }

  // ---------------------------------------------------------------- live commands

  predicate DistinctIds(a: seq<Command>) {
    forall i, j :: 0 <= i < j < |a| ==> a[i].id != a[j].id
  }

  predicate ApartIds(a: seq<Command>, b: seq<Command>) {
    forall i, j :: 0 <= i < |a| && 0 <= j < |b| ==> a[i].id != b[j].id
  }

  /** `active_meta` describes exactly the active ProcessEvents. */
  ghost predicate MetaExact(active: seq<Command>, meta: map<nat, Fid>) {
    && (forall i :: 0 <= i < |active| && active[i].kind.ProcessEvent? ==>
                      active[i].id in meta && meta[active[i].id] == active[i].fid)
    && (forall k :: k in meta ==>
                      exists i :: 0 <= i < |active| && active[i].kind.ProcessEvent? && active[i].id == k)
  }

  /** No two active ProcessEvents concern the same process. */
  predicate EventsApart(active: seq<Command>) {
    forall i, j :: 0 <= i < j < |active| && active[i].kind.ProcessEvent? && active[j].kind.ProcessEvent? ==>
                     active[i].fid != active[j].fid
  }

  /** What the planner keeps about its active commands. */
  ghost predicate ActiveInv(p: Planner) {
    && DistinctIds(p.active)
    && (forall i :: 0 <= i < |p.active| && !p.active[i].kind.IsAsap() ==> p.active[i].group == p.cur)
    && MetaExact(p.active, p.meta)
    && EventsApart(p.active)
  }

  /** Submissions carry their own identities. */
  ghost predicate IdInv(s: System) {
    && (forall i :: 0 <= i < |s.submitted| ==> !s.submitted[i].kind.IsAsap() && s.submitted[i].id != POISON_ID)
    && (forall i :: 0 <= i < |s.submittedAsap| ==>
                      s.submittedAsap[i].kind.IsAsap() && s.submittedAsap[i].id != POISON_ID)
    && DistinctIds(s.submitted) && DistinctIds(s.submittedAsap) && ApartIds(s.submitted, s.submittedAsap)
  }

  /** Every started command is either active or finished, and none is counted twice. */
  ghost predicate Ledger(s: System) {
    && s.submitted == s.started + s.p.backlog
    && s.submittedAsap == s.startedAsap + s.p.asap
    && multiset(s.started) + multiset(s.startedAsap) == multiset(s.p.active) + multiset(s.finished)
  }

  lemma ActiveWasStarted(s: System, c: Command)
    requires Ledger(s) && c in s.p.active
    ensures c in s.started || c in s.startedAsap
  {
    assert c in multiset(s.p.active);
    assert c in multiset(s.started) + multiset(s.startedAsap);
  }

  /** A queued command's identity is not among the active ones. */
  lemma QueuedNotActive(s: System, i: nat)
    requires IdInv(s) && Ledger(s) && i < |s.p.active|
    ensures s.p.backlog != [] ==> s.p.active[i].id != s.p.backlog[0].id
    ensures s.p.asap != [] ==> s.p.active[i].id != s.p.asap[0].id
    ensures s.p.active[i].id != POISON_ID
  {
    var c := s.p.active[i];
    ActiveWasStarted(s, c);
    if s.p.backlog != [] { assert s.submitted[|s.started|] == s.p.backlog[0]; }
    if s.p.asap != [] { assert s.submittedAsap[|s.startedAsap|] == s.p.asap[0]; }
    if c in s.started {
      var k :| 0 <= k < |s.started| && s.started[k] == c;
      assert s.submitted[k] == c;
    } else {
      var k :| 0 <= k < |s.startedAsap| && s.startedAsap[k] == c;
      assert s.submittedAsap[k] == c;
    }
  }

  lemma IdsAdd(ids: GroupIds, s: System, id: nat, kind: Kind, fid: Fid)
    requires IdInv(s) && Enabled(s, Add(id, kind, fid))
    ensures IdInv(StepAdd(ids, s, id, kind, fid))
  {
  }

  lemma LedgerAdd(ids: GroupIds, s: System, id: nat, kind: Kind, fid: Fid)
    requires Ledger(s)
    ensures Ledger(StepAdd(ids, s, id, kind, fid))
  {
    var t := StepAdd(ids, s, id, kind, fid);
    if kind.IsAsap() {
      assert t.submittedAsap == t.startedAsap + t.p.asap;
    } else {
      assert t.submitted == t.started + t.p.backlog;
    }
  }

  lemma Balance<T>(a: multiset<T>, b: multiset<T>, d: multiset<T>, e: multiset<T>, c: T)
    requires a + b == d + e
    ensures (a + multiset{c}) + b == (multiset{c} + d) + e
    ensures a + (b + multiset{c}) == (multiset{c} + d) + e
    ensures c in d ==> a + b == (d - multiset{c}) + (e + multiset{c})
  {
    assert (a + multiset{c}) + b == (a + b) + multiset{c};
    assert (multiset{c} + d) + e == (d + e) + multiset{c};
    assert a + (b + multiset{c}) == (a + b) + multiset{c};
  }

  lemma LedgerTake(s: System, w: nat)
    requires Ledger(s) && w < |s.workers|
    ensures Ledger(StepTake(s, w))
  {
    var t := StepTake(s, w);
    if Choose(s.p).FromAsap? || Choose(s.p).FromBacklog? {
      var c := Chosen(s.p);
      assert t.p.active == [c] + s.p.active;
      assert multiset(t.p.active) == multiset{c} + multiset(s.p.active);
      Balance(multiset(s.started), multiset(s.startedAsap), multiset(s.p.active), multiset(s.finished), c);
      if Choose(s.p).FromAsap? {
        assert t.submittedAsap == t.startedAsap + t.p.asap;
        assert multiset(t.startedAsap) == multiset(s.startedAsap) + multiset{c};
      } else {
        assert t.submitted == t.started + t.p.backlog;
        assert multiset(t.started) == multiset(s.started) + multiset{c};
      }
    }
  }

  lemma LedgerFinish(ids: GroupIds, s: System, w: nat)
    requires Ledger(s) && w < |s.workers| && s.workers[w].Busy?
    ensures Ledger(StepFinish(ids, s, w))
  {
    var c := s.workers[w].cmd;
    var t := StepFinish(ids, s, w);
    RemoveFirstMultiset(s.p.active, c);
    assert t.p.active == RemoveFirst(s.p.active, c);
    if c in s.p.active {
      Balance(multiset(s.started), multiset(s.startedAsap), multiset(s.p.active), multiset(s.finished), c);
      assert multiset(t.finished) == multiset(s.finished) + multiset{c};
    }
  }

  lemma ActivateMeta(a: seq<Command>, meta: map<nat, Fid>, c: Command)
    requires MetaExact(a, meta) && forall i :: 0 <= i < |a| ==> a[i].id != c.id
    ensures MetaExact([c] + a, if c.kind.ProcessEvent? then meta[c.id := c.fid] else meta)
  {
    var r, m := [c] + a, if c.kind.ProcessEvent? then meta[c.id := c.fid] else meta;
    forall k | k in m
      ensures exists i :: 0 <= i < |r| && r[i].kind.ProcessEvent? && r[i].id == k
    {
      if k == c.id && c.kind.ProcessEvent? {
        assert r[0].id == k;
      } else {
        var i :| 0 <= i < |a| && a[i].kind.ProcessEvent? && a[i].id == k;
        assert r[i + 1].id == k;
      }
    }
  }

  lemma ActivateApart(p: Planner, c: Command)
    requires MetaExact(p.active, p.meta) && EventsApart(p.active) && AllowedAsap(p, c)
    ensures EventsApart([c] + p.active)
  {
    forall i | 0 <= i < |p.active| && p.active[i].kind.ProcessEvent?
      ensures p.active[i].fid in p.meta.Values
    {
      assert p.active[i].id in p.meta;
    }
  }

  /** Activating an allowed command keeps the metadata exact and process events apart. */
  lemma ActivateKeeps(p: Planner, c: Command)
    requires ActiveInv(p)
    requires forall i :: 0 <= i < |p.active| ==> p.active[i].id != c.id
    requires AllowedAsap(p, c) && (!c.kind.IsAsap() ==> c.group == p.cur)
    ensures ActiveInv(Activate(p, c))
  {
    ActivateMeta(p.active, p.meta, c);
    ActivateApart(p, c);
  }

  lemma ActiveTake(s: System, w: nat)
    requires IdInv(s) && Ledger(s) && ActiveInv(s.p) && w < |s.workers|
    ensures ActiveInv(StepTake(s, w).p)
  {
    forall i | 0 <= i < |s.p.active| { QueuedNotActive(s, i); }
    match Choose(s.p) {
      case Nothing =>
      case Poison =>
      case FromAsap =>
        assert s.p.asap[0] == s.submittedAsap[|s.startedAsap|];
        ActivateKeeps(s.p.(asap := s.p.asap[1..]), s.p.asap[0]);
      case FromBacklog =>
        assert s.p.backlog[0] == s.submitted[|s.started|];
        ActivateKeeps(s.p.(backlog := s.p.backlog[1..]), s.p.backlog[0]);
    }
  }

  lemma CutRemoves(a: seq<Command>, k: nat)
    requires k < |a| && DistinctIds(a)
    ensures RemoveFirst(a, a[k]) == a[..k] + a[k+1..]
  {
    SplicedContents(a, k, a[k]);
  }

  lemma CutAt(a: seq<Command>, k: nat, i: nat)
    requires k < |a| && i < |a| - 1
    ensures (a[..k] + a[k+1..])[i] == a[if i < k then i else i + 1]
  {
  }

  lemma CutKeeps(a: seq<Command>, k: nat)
    requires k < |a| && DistinctIds(a) && EventsApart(a)
    ensures RemoveFirst(a, a[k]) == a[..k] + a[k+1..]
    ensures DistinctIds(a[..k] + a[k+1..]) && EventsApart(a[..k] + a[k+1..])
  {
    CutRemoves(a, k);
    var r := a[..k] + a[k+1..];
    forall i, j | 0 <= i < j < |r|
      ensures r[i].id != r[j].id
      ensures r[i].kind.ProcessEvent? && r[j].kind.ProcessEvent? ==> r[i].fid != r[j].fid
    {
      CutAt(a, k, i);
      CutAt(a, k, j);
    }
  }

  lemma CutMeta(a: seq<Command>, meta: map<nat, Fid>, k: nat)
    requires k < |a| && DistinctIds(a) && MetaExact(a, meta)
    ensures MetaExact(a[..k] + a[k+1..], meta - {a[k].id})
  {
    var r, m := a[..k] + a[k+1..], meta - {a[k].id};
    forall i | 0 <= i < |r| && r[i].kind.ProcessEvent?
      ensures r[i].id in m && m[r[i].id] == r[i].fid
    {
      assert r[i] == a[if i < k then i else i + 1];
    }
    forall key | key in m
      ensures exists i :: 0 <= i < |r| && r[i].kind.ProcessEvent? && r[i].id == key
    {
      var i :| 0 <= i < |a| && a[i].kind.ProcessEvent? && a[i].id == key;
      assert r[if i < k then i else i - 1].id == key;
    }
  }

  /** What a busy worker runs is active, unless it is a poison pill. */
  predicate Running(p: Planner, c: Command) {
    c in p.active || c.id == POISON_ID
  }

  lemma RetireAt(p: Planner, k: nat)
    requires ActiveInv(p) && k < |p.active|
    ensures ActiveInv(Retire(p, p.active[k]))
  {
    CutKeeps(p.active, k);
    CutMeta(p.active, p.meta, k);
    var r := p.active[..k] + p.active[k+1..];
    forall i | 0 <= i < |r| && !r[i].kind.IsAsap()
      ensures r[i].group == p.cur
    {
      assert r[i] == p.active[if i < k then i else i + 1];
    }
  }

  lemma NoMetaForPoison(p: Planner)
    requires MetaExact(p.active, p.meta)
    requires forall i :: 0 <= i < |p.active| ==> p.active[i].id != POISON_ID
    ensures POISON_ID !in p.meta
  {
  }

  lemma RetirePoison(p: Planner, c: Command)
    requires MetaExact(p.active, p.meta) && c !in p.active && c.id == POISON_ID
    requires forall i :: 0 <= i < |p.active| ==> p.active[i].id != POISON_ID
    ensures Retire(p, c) == p
  {
    RemoveFirstMultiset(p.active, c);
    NoMetaForPoison(p);
    assert p.meta - {c.id} == p.meta;
  }

  lemma RetireKeeps(p: Planner, c: Command)
    requires ActiveInv(p) && Running(p, c)
    requires forall i :: 0 <= i < |p.active| ==> p.active[i].id != POISON_ID
    ensures ActiveInv(Retire(p, c))
  {
    if c in p.active {
      var k :| 0 <= k < |p.active| && p.active[k] == c;
      RetireAt(p, k);
    } else {
      RetirePoison(p, c);
    }
  }

  lemma ActiveFinish(ids: GroupIds, s: System, w: nat)
    requires IdInv(s) && Ledger(s) && ActiveInv(s.p)
    requires w < |s.workers| && s.workers[w].Busy? && Running(s.p, s.workers[w].cmd)
    ensures ActiveInv(StepFinish(ids, s, w).p)
  {
    forall i | 0 <= i < |s.p.active| { QueuedNotActive(s, i); }
    RetireKeeps(s.p, s.workers[w].cmd);
  }

  // ---------------------------------------------------------------- workers

  predicate AllAsleep(ws: seq<Worker>) {
    forall w :: 0 <= w < |ws| ==> ws[w].Asleep?
  }

  predicate RunsAt(ws: seq<Worker>, w: int, c: Command) {
    0 <= w < |ws| && ws[w] == Busy(c)
  }

  ghost predicate SomeoneRuns(ws: seq<Worker>, c: Command) {
    exists w :: RunsAt(ws, w, c)
  }

  predicate DieIn(cs: seq<Command>) {
    exists i :: 0 <= i < |cs| && cs[i].kind.Die?
  }

  ghost predicate WorkInv(s: System) {
    && (forall w :: 0 <= w < |s.workers| && s.workers[w].Busy? ==> Running(s.p, s.workers[w].cmd))
    && (forall i :: 0 <= i < |s.p.active| ==> SomeoneRuns(s.workers, s.p.active[i]))
    && (forall v, w, c :: RunsAt(s.workers, v, c) && RunsAt(s.workers, w, c) && c.id != POISON_ID ==> v == w)
    && (AllAsleep(s.workers) ==> Choose(s.p).Nothing?)
  }

  /** Workers leave only on shutdown, or on a Die that was submitted as a command. */
  ghost predicate ExitInv(s: System) {
    && (forall w :: 0 <= w < |s.workers| && s.workers[w].Exited? ==> s.p.shutdown || DieIn(s.submitted))
    && (forall w :: 0 <= w < |s.workers| && s.workers[w].Busy? && s.workers[w].cmd.kind.Die? ==>
                      s.p.shutdown || DieIn(s.submitted))
  }

  lemma WokenRuns(ws: seq<Worker>)
    ensures forall w, c :: RunsAt(Woken(ws), w, c) <==> RunsAt(ws, w, c)
    ensures forall c :: SomeoneRuns(Woken(ws), c) <==> SomeoneRuns(ws, c)
    ensures ws != [] ==> !AllAsleep(Woken(ws))
  {
    var r := Woken(ws);
    forall c
      ensures SomeoneRuns(r, c) <==> SomeoneRuns(ws, c)
    {
      if SomeoneRuns(ws, c) { var w :| RunsAt(ws, w, c); assert RunsAt(r, w, c); }
      if SomeoneRuns(r, c) { var w :| RunsAt(r, w, c); assert RunsAt(ws, w, c); }
    }
    if ws != [] { assert !r[0].Asleep?; }
  }

  /** Replacing what worker `w` does concerns no other worker. */
  lemma OthersRun(ws: seq<Worker>, w: nat, x: Worker, c: Command)
    requires w < |ws| && SomeoneRuns(ws, c) && ws[w] != Busy(c)
    ensures SomeoneRuns(ws[w := x], c)
  {
    var v :| RunsAt(ws, v, c);
    assert RunsAt(ws[w := x], v, c);
  }

  lemma WorkAdd(ids: GroupIds, s: System, id: nat, kind: Kind, fid: Fid)
    requires WorkInv(s) && s.workers != []
    ensures WorkInv(StepAdd(ids, s, id, kind, fid))
  {
    WokenRuns(s.workers);
  }

  lemma WorkShutdown(s: System)
    requires WorkInv(s) && s.workers != []
    ensures WorkInv(s.(p := s.p.(shutdown := true), workers := Woken(s.workers)))
  {
    WokenRuns(s.workers);
  }

  lemma WorkTake(s: System, w: nat)
    requires WorkInv(s) && IdInv(s) && Ledger(s) && Enabled(s, Take(w))
    ensures WorkInv(StepTake(s, w))
  {
    var t := StepTake(s, w);
    assert s.workers[w].Awake?;
    forall v, d ensures v != w && RunsAt(t.workers, v, d) ==> RunsAt(s.workers, v, d) {}
    forall i | 0 <= i < |s.p.active|
      ensures SomeoneRuns(t.workers, s.p.active[i])
    {
      OthersRun(s.workers, w, t.workers[w], s.p.active[i]);
    }
    if !Choose(s.p).Nothing? {
      var c := Chosen(s.p);
      assert RunsAt(t.workers, w, c);
      assert SomeoneRuns(t.workers, c);
      assert !t.workers[w].Asleep?;
      NotYetRun(s);
    }
  }

  /** The command about to be handed out runs nowhere yet. */
  lemma NotYetRun(s: System)
    requires WorkInv(s) && IdInv(s) && Ledger(s) && !Choose(s.p).Nothing?
    ensures Chosen(s.p).id != POISON_ID ==> forall v :: !RunsAt(s.workers, v, Chosen(s.p))
  {
    var c := Chosen(s.p);
    if c.id != POISON_ID && c in s.p.active {
      var i :| 0 <= i < |s.p.active| && s.p.active[i] == c;
      QueuedNotActive(s, i);
    }
  }

  /** Retiring keeps the active commands of the other workers. */
  lemma OthersStayActive(s: System, w: nat)
    requires WorkInv(s) && ActiveInv(s.p) && w < |s.workers| && s.workers[w].Busy?
    ensures var q := Retire(s.p, s.workers[w].cmd);
            && (forall v :: 0 <= v < |s.workers| && v != w && s.workers[v].Busy? ==> Running(q, s.workers[v].cmd))
            && (forall i :: 0 <= i < |q.active| ==> q.active[i] != s.workers[w].cmd && q.active[i] in s.p.active)
  {
    var c := s.workers[w].cmd;
    var q := Retire(s.p, c);
    RemoveFirstMultiset(s.p.active, c);
    assert RunsAt(s.workers, w, c);
    assert multiset(s.p.active)[c] <= 1 by { OnceActive(s.p.active, c); }
    forall d | d in s.p.active && d != c
      ensures d in q.active
    {
      assert d in multiset(q.active);
    }
    forall v | 0 <= v < |s.workers| && v != w && s.workers[v].Busy?
      ensures Running(q, s.workers[v].cmd)
    {
      assert RunsAt(s.workers, v, s.workers[v].cmd);
    }
    forall i | 0 <= i < |q.active|
      ensures q.active[i] != c && q.active[i] in s.p.active
    {
      assert q.active[i] in multiset(q.active);
    }
  }

  lemma {:induction false} OnceActive(a: seq<Command>, c: Command)
    requires DistinctIds(a)
    ensures multiset(a)[c] <= 1
  {
    if a != [] {
      assert a == [a[0]] + a[1..];
      OnceActive(a[1..], c);
      if a[0] == c {
        assert c !in a[1..];
      }
    }
  }

  lemma WorkFinish(ids: GroupIds, s: System, w: nat)
    requires WorkInv(s) && ActiveInv(s.p) && w < |s.workers| && s.workers[w].Busy?
    ensures WorkInv(StepFinish(ids, s, w))
  {
    var c := s.workers[w].cmd;
    var ws := s.workers[w := if c.kind.Die? then Exited else Awake];
    var q := Retire(s.p, c);
    OthersStayActive(s, w);
    WokenRuns(ws);
    assert !ws[w].Asleep? && !ws[w].Busy?;
    forall i | 0 <= i < |q.active|
      ensures SomeoneRuns(ws, q.active[i])
    {
      OthersRun(s.workers, w, ws[w], q.active[i]);
    }
    forall v, d ensures RunsAt(ws, v, d) ==> RunsAt(s.workers, v, d) {}
  }

  // ---------------------------------------------------------------- all runs

  /** What holds however group numbers are advanced. */
  ghost predicate Core(s: System) {
    s.workers != [] && IdInv(s) && Ledger(s) && ActiveInv(s.p) && WorkInv(s) && ExitInv(s)
  }

  ghost predicate Inv(s: System) {
    GroupInv(s) && Core(s)
  }

  lemma DieStays(cs: seq<Command>, c: Command)
    requires DieIn(cs)
    ensures DieIn(cs + [c])
  {
    var i :| 0 <= i < |cs| && cs[i].kind.Die?;
    assert (cs + [c])[i].kind.Die?;
  }

  lemma ExitStep(ids: GroupIds, s: System, l: Label)
    requires Ledger(s) && IdInv(s) && ExitInv(s) && Enabled(s, l)
    ensures ExitInv(Step(ids, s, l))
  {
    match l {
      case Add(id, kind, fid) =>
        if DieIn(s.submitted) { DieStays(s.submitted, Submit(ids, s.p, id, kind, fid)); }
      case Take(w) =>
        if Choose(s.p).FromBacklog? {
          assert s.p.backlog[0] == s.submitted[|s.started|];
        } else if Choose(s.p).FromAsap? {
          assert s.p.asap[0] == s.submittedAsap[|s.startedAsap|];
        }
      case Finish(w) =>
      case Shutdown =>
    }
  }

  lemma CoreStep(ids: GroupIds, s: System, l: Label)
    requires Core(s) && Enabled(s, l)
    ensures Core(Step(ids, s, l))
  {
    ExitStep(ids, s, l);
    match l {
      case Add(id, kind, fid) =>
        IdsAdd(ids, s, id, kind, fid);
        LedgerAdd(ids, s, id, kind, fid);
        WorkAdd(ids, s, id, kind, fid);
      case Take(w) =>
        LedgerTake(s, w);
        ActiveTake(s, w);
        WorkTake(s, w);
      case Finish(w) =>
        LedgerFinish(ids, s, w);
        ActiveFinish(ids, s, w);
        WorkFinish(ids, s, w);
      case Shutdown =>
        WorkShutdown(s);
    }
  }

  lemma InvStep(s: System, l: Label)
    requires Inv(s) && Enabled(s, l)
    ensures Inv(Step(Unbounded, s, l))
  {
    CoreStep(Unbounded, s, l);
    match l {
      case Add(id, kind, fid) => GroupInvAdd(s, id, kind, fid);
      case Take(w) => GroupInvTake(s, w);
      case Finish(w) => GroupInvFinish(s, w);
      case Shutdown =>
    }
  }

  lemma StartCore(g: nat, n: nat)
    requires n > 0
    ensures Core(Start(g, n))
  {
    assert !Start(g, n).workers[0].Asleep?;
  }

  /** Every state of every run, cyclic or not, satisfies the core invariant. */
  lemma {:induction false} RunCore(ids: GroupIds, g: nat, n: nat, ls: seq<Label>)
    requires n > 0 && Run(ids, Start(g, n), ls).Some?
    ensures Core(Run(ids, Start(g, n), ls).value)
    decreases |ls|
  {
    if ls == [] {
      StartCore(g, n);
    } else {
      RunCore(ids, g, n, ls[..|ls|-1]);
      var s := Run(ids, Start(g, n), ls[..|ls|-1]).value;
      CoreStep(ids, s, ls[|ls|-1]);
    }
  }

  /** Every state of every run of the unbounded planner satisfies the whole invariant. */
  lemma {:induction false} RunInv(g: nat, n: nat, ls: seq<Label>)
    requires n > 0 && Run(Unbounded, Start(g, n), ls).Some?
    ensures Inv(Run(Unbounded, Start(g, n), ls).value)
    decreases |ls|
  {
    RunCore(Unbounded, g, n, ls);
    if ls != [] {
      RunInv(g, n, ls[..|ls|-1]);
      InvStep(Run(Unbounded, Start(g, n), ls[..|ls|-1]).value, ls[|ls|-1]);
    }
  }
}
