/** `stop_parallel`: a bounded queue served by a pool of threads (utils/utils.py).  A worker whose call of
    `process_stop` raises is lost. */
module WorkerPool {
  import opened Fids

  datatype Message<P> = StopProcess(process: P) | Quit

  /** A thread leaves after a quit message, or because a call raised. */
  datatype Worker<P> = Waiting | Working(process: P) | Gone(raised: bool)

  /** The processes to stop, the number of threads asked for, and which calls raise. */
  datatype Job<!P> = Job(list: seq<P>, threads: int, raises: P -> bool)

  /** What the main thread has put, the queue, the messages taken so far in order and who took them, the
      workers, and how many of them have been joined. */
  datatype System<P> = System(
    put: nat, queue: seq<Message<P>>, taken: seq<Message<P>>, takers: seq<nat>, workers: seq<Worker<P>>, joined: nat)

  datatype Label = Put | Take(w: nat) | Finish(w: nat) | Join

  function Threads<P>(j: Job<P>): nat {
    if j.threads <= 0 then 0 else if j.threads <= |j.list| then j.threads else |j.list|
  }

  /** Everything the main thread puts. */
  function Messages<P>(j: Job<P>): (r: seq<Message<P>>)
    ensures |r| == |j.list| + Threads(j)
  {
    seq(|j.list| + Threads(j), i requires 0 <= i => if i < |j.list| then StopProcess(j.list[i]) else Quit)
  }

  function Start<P>(j: Job<P>): System<P> {
    System(0, [], [], [], seq(Threads(j), _ => Waiting), 0)
  }

  predicate Enabled<P>(j: Job<P>, s: System<P>, l: Label) {
    match l
    case Put => s.put < |Messages(j)| && |s.queue| < |j.list|
    case Take(w) => w < |s.workers| && s.workers[w].Waiting? && s.queue != []
    case Finish(w) => w < |s.workers| && s.workers[w].Working?
    case Join => s.put == |Messages(j)| && s.joined < |s.workers| && s.workers[s.joined].Gone?
  }

  function Step<P>(j: Job<P>, s: System<P>, l: Label): System<P>
    requires Enabled(j, s, l)
  {
    match l
    case Put => s.(put := s.put + 1, queue := s.queue + [Messages(j)[s.put]])
    case Take(w) =>
      var m := s.queue[0];
      s.(queue := s.queue[1..], taken := s.taken + [m], takers := s.takers + [w],
         workers := s.workers[w := if m.Quit? then Gone(false) else Working(m.process)])
    case Finish(w) =>
      s.(workers := s.workers[w := if j.raises(s.workers[w].process) then Gone(true) else Waiting])
    case Join => s.(joined := s.joined + 1)
  }

  function Run<P>(j: Job<P>, ls: seq<Label>): Option<System<P>> {
    if ls == [] then Some(Start(j))
    else
      var r := Run(j, ls[..|ls|-1]);
      if r.None? || !Enabled(j, r.value, ls[|ls|-1]) then None else Some(Step(j, r.value, ls[|ls|-1]))
  }

  /** `stop_parallel` returns. */
  predicate Returned<P>(j: Job<P>, s: System<P>) {
    s.put == |Messages(j)| && s.joined == |s.workers|
  }

  // ---------------------------------------------------------------- lost workers

  /** This message takes the worker that gets it out of the pool, now or when its call raises. */
  predicate Costs<P>(j: Job<P>, m: Message<P>) {
    m.Quit? || j.raises(m.process)
  }

  function Cost<P>(j: Job<P>, ms: seq<Message<P>>): nat {
    if ms == [] then 0 else Cost(j, ms[..|ms|-1]) + if Costs(j, ms[|ms|-1]) then 1 else 0
  }

  lemma CostPush<P>(j: Job<P>, ms: seq<Message<P>>, m: Message<P>)
    ensures Cost(j, ms + [m]) == Cost(j, ms) + if Costs(j, m) then 1 else 0
  {
    assert (ms + [m])[..|ms|] == ms;
  }

  lemma {:induction false} CostBounded<P>(j: Job<P>, ms: seq<Message<P>>)
    ensures Cost(j, ms) <= |ms|
    decreases |ms|
  {
    if ms != [] {
      CostBounded(j, ms[..|ms|-1]);
    }
  }

  predicate Lost<P>(j: Job<P>, w: Worker<P>) {
    w.Gone? || (w.Working? && j.raises(w.process))
  }

  function LostCount<P>(j: Job<P>, ws: seq<Worker<P>>): nat {
    if ws == [] then 0 else LostCount(j, ws[..|ws|-1]) + if Lost(j, ws[|ws|-1]) then 1 else 0
  }

  lemma {:induction false} LostUpdate<P>(j: Job<P>, ws: seq<Worker<P>>, i: nat, w: Worker<P>)
    requires i < |ws|
    ensures LostCount(j, ws[i := w]) ==
            LostCount(j, ws) + (if Lost(j, w) then 1 else 0) - (if Lost(j, ws[i]) then 1 else 0)
    decreases |ws|
  {
    var n := |ws| - 1;
    if i == n {
      assert ws[i := w][..n] == ws[..n];
    } else {
      assert ws[i := w][..n] == ws[..n][i := w];
      LostUpdate(j, ws[..n], i, w);
    }
  }

  lemma {:induction false} LostBounds<P>(j: Job<P>, ws: seq<Worker<P>>)
    ensures LostCount(j, ws) <= |ws|
    ensures LostCount(j, ws) == |ws| <==> forall i :: 0 <= i < |ws| ==> Lost(j, ws[i])
    decreases |ws|
  {
    if ws != [] {
      LostBounds(j, ws[..|ws|-1]);
    }
  }

  lemma {:induction false} FreshNoneLost<P>(j: Job<P>, n: nat)
    ensures LostCount(j, seq(n, _ => Waiting)) == 0
  {
    if n > 0 {
      FreshNoneLost(j, n - 1);
      assert seq(n, _ => Worker<P>.Waiting)[..n-1] == seq(n - 1, _ => Worker<P>.Waiting);
    }
  }

  // ---------------------------------------------------------------- invariants

  /** First in, first out: the messages taken, then the queue, are what has been put. */
  ghost predicate Fifo<P>(j: Job<P>, s: System<P>) {
    s.put <= |Messages(j)| && s.taken + s.queue == Messages(j)[..s.put]
  }

  /** Each worker lost is accounted for by a message, and there was a free worker for the last message. */
  ghost predicate Staffed<P>(j: Job<P>, s: System<P>) {
    && LostCount(j, s.workers) == Cost(j, s.taken)
    && (s.taken != [] ==> Cost(j, s.taken[..|s.taken|-1]) < |s.workers|)
  }

  ghost predicate Inv<P>(j: Job<P>, s: System<P>) {
    && Fifo(j, s) && Staffed(j, s)
    && |s.workers| == Threads(j) && s.joined <= |s.workers|
    && (forall i :: 0 <= i < s.joined ==> s.workers[i].Gone?)
  }

  lemma StartInv<P>(j: Job<P>)
    ensures Inv(j, Start(j))
  {
    FreshNoneLost(j, Threads(j));
  }

  lemma FifoStep<P>(j: Job<P>, s: System<P>, l: Label)
    requires Fifo(j, s) && Enabled(j, s, l)
    ensures Fifo(j, Step(j, s, l))
  {
    var s' := Step(j, s, l);
    if l.Put? {
      assert Messages(j)[..s'.put] == Messages(j)[..s.put] + [Messages(j)[s.put]];
    } else if l.Take? {
      assert s.queue == [s.queue[0]] + s.queue[1..];
      assert s'.taken + s'.queue == s.taken + s.queue;
    }
  }

  lemma StaffedStep<P>(j: Job<P>, s: System<P>, l: Label)
    requires Staffed(j, s) && Enabled(j, s, l)
    ensures Staffed(j, Step(j, s, l))
  {
    var s' := Step(j, s, l);
    match l
    case Take(w) =>
      LostUpdate(j, s.workers, w, s'.workers[w]);
      CostPush(j, s.taken, s.queue[0]);
      LostBounds(j, s.workers);
      assert !Lost(j, s.workers[w]);
      assert s'.taken[..|s'.taken|-1] == s.taken;
    case Finish(w) =>
      LostUpdate(j, s.workers, w, s'.workers[w]);
    case Put =>
    case Join =>
  }

  /** The `k`-th message taken is a quit message, and worker `w` took it. */
  predicate TookQuit<P>(s: System<P>, k: int, w: nat)
    requires |s.takers| == |s.taken|
  {
    0 <= k < |s.taken| && s.taken[k].Quit? && s.takers[k] == w
  }

  ghost predicate Quitted<P>(s: System<P>, w: nat)
    requires |s.takers| == |s.taken|
  {
    exists k :: TookQuit(s, k, w)
  }

  /** Exactly the workers that left without an exception have taken a quit message, each just one. */
  ghost predicate QuitsTaken<P>(s: System<P>) {
    && |s.takers| == |s.taken|
    && (forall w :: 0 <= w < |s.workers| && s.workers[w] == Gone(false) ==> Quitted(s, w))
    && (forall k :: 0 <= k < |s.taken| && s.taken[k].Quit? ==>
                      s.takers[k] < |s.workers| && s.workers[s.takers[k]] == Gone(false))
    && (forall k, k' :: 0 <= k < k' < |s.taken| && s.taken[k].Quit? && s.taken[k'].Quit? ==> s.takers[k] != s.takers[k'])
  }

  lemma QuitsTake<P>(j: Job<P>, s: System<P>, w: nat)
    requires QuitsTaken(s) && Enabled(j, s, Take(w))
    ensures QuitsTaken(Step(j, s, Take(w)))
  {
    var t := Step(j, s, Take(w));
    forall v | 0 <= v < |t.workers| && t.workers[v] == Gone(false)
      ensures Quitted(t, v)
    {
      if v == w {
        assert TookQuit(t, |s.taken|, v);
      } else {
        assert s.workers[v] == Gone(false);
        var k :| TookQuit(s, k, v);
        assert TookQuit(t, k, v);
      }
    }
  }

  lemma QuitsStep<P>(j: Job<P>, s: System<P>, l: Label)
    requires QuitsTaken(s) && Enabled(j, s, l)
    ensures QuitsTaken(Step(j, s, l))
  {
    if l.Take? {
      QuitsTake(j, s, l.w);
    } else {
      var t := Step(j, s, l);
      forall w | 0 <= w < |t.workers| && t.workers[w] == Gone(false)
        ensures Quitted(t, w)
      {
        assert s.workers[w] == Gone(false);
        var k :| TookQuit(s, k, w);
        assert TookQuit(t, k, w);
      }
    }
  }

  lemma {:induction false} RunQuits<P>(j: Job<P>, ls: seq<Label>)
    requires Run(j, ls).Some?
    ensures QuitsTaken(Run(j, ls).value)
    decreases |ls|
  {
    if ls != [] {
      RunQuits(j, ls[..|ls|-1]);
      QuitsStep(j, Run(j, ls[..|ls|-1]).value, ls[|ls|-1]);
    }
  }

  /** Workers work on listed processes, and are lost to those that raise. */
  ghost predicate OnList<P>(j: Job<P>, s: System<P>) {
    && Fifo(j, s)
    && (forall w :: 0 <= w < |s.workers| && s.workers[w].Working? ==> s.workers[w].process in j.list)
    && (forall w :: 0 <= w < |s.workers| && s.workers[w] == Gone(true) ==> exists p :: p in j.list && j.raises(p))
  }

  lemma OnListStep<P>(j: Job<P>, s: System<P>, l: Label)
    requires OnList(j, s) && Enabled(j, s, l)
    ensures OnList(j, Step(j, s, l))
  {
    FifoStep(j, s, l);
    if l.Take? {
      assert s.queue[0] == (s.taken + s.queue)[|s.taken|];
      assert s.queue[0] == Messages(j)[|s.taken|];
    }
  }

  lemma {:induction false} RunOnList<P>(j: Job<P>, ls: seq<Label>)
    requires Run(j, ls).Some?
    ensures OnList(j, Run(j, ls).value)
    decreases |ls|
  {
    if ls != [] {
      RunOnList(j, ls[..|ls|-1]);
      OnListStep(j, Run(j, ls[..|ls|-1]).value, ls[|ls|-1]);
    }
  }

  lemma InvStep<P>(j: Job<P>, s: System<P>, l: Label)
    requires Inv(j, s) && Enabled(j, s, l)
    ensures Inv(j, Step(j, s, l))
  {
    FifoStep(j, s, l);
    StaffedStep(j, s, l);
  }

  lemma {:induction false} RunInv<P>(j: Job<P>, ls: seq<Label>)
    requires Run(j, ls).Some?
    ensures Inv(j, Run(j, ls).value)
    decreases |ls|
  {
    if ls == [] {
      StartInv(j);
    } else {
      RunInv(j, ls[..|ls|-1]);
      InvStep(j, Run(j, ls[..|ls|-1]).value, ls[|ls|-1]);
    }
  }

  // ---------------------------------------------------------------- every run comes to an end

  /** Some step is possible. */
  ghost predicate Moves<P>(j: Job<P>, s: System<P>) {
    || Enabled(j, s, Put)
    || Enabled(j, s, Join)
    || (exists w :: 0 <= w < |s.workers| && Enabled(j, s, Take(w)))
    || (exists w :: 0 <= w < |s.workers| && Enabled(j, s, Finish(w)))
  }

  /** With as many messages left to put as the queue holds, a worker is left. */
  lemma FullQueueHasWorker<P>(j: Job<P>, s: System<P>)
    requires Inv(j, s) && s.put < |Messages(j)| && |s.queue| >= |j.list|
    ensures exists w :: 0 <= w < |s.workers| && !s.workers[w].Gone?
  {
    CostBounded(j, s.taken);
    LostBounds(j, s.workers);
    assert |s.taken| + |s.queue| == s.put;
  }

  /** The quit messages suffice for the workers. */
  lemma {:induction false} QuitsCost<P>(j: Job<P>, n: nat)
    requires |j.list| <= n <= |Messages(j)|
    ensures Cost(j, Messages(j)[..n]) >= n - |j.list|
  {
    if n > |j.list| {
      QuitsCost(j, n - 1);
      assert Messages(j)[..n] == Messages(j)[..n-1] + [Quit];
      CostPush(j, Messages(j)[..n-1], Quit);
    }
  }

  /** The main thread and the workers never wait for each other. */
  lemma NeverStuck<P>(j: Job<P>, s: System<P>)
    requires Inv(j, s) && !Returned(j, s)
    ensures Moves(j, s)
  {
    if s.put < |Messages(j)| {
      if |s.queue| >= |j.list| {
        FullQueueHasWorker(j, s);
        var w :| 0 <= w < |s.workers| && !s.workers[w].Gone?;
        assert s.queue != [];
        assert Enabled(j, s, Take(w)) || Enabled(j, s, Finish(w));
      }
    } else {
      var w := s.joined;
      if s.workers[w].Waiting? {
        if s.queue == [] {
          assert s.taken == Messages(j)[..|Messages(j)|];
          QuitsCost(j, |Messages(j)|);
          LostBounds(j, s.workers);
        }
        assert Enabled(j, s, Take(w));
      } else if s.workers[w].Working? {
        assert Enabled(j, s, Finish(w));
      }
    }
  }

  function Busy<P>(ws: seq<Worker<P>>): nat {
    if ws == [] then 0 else Busy(ws[..|ws|-1]) + if ws[|ws|-1].Working? then 1 else 0
  }

  lemma {:induction false} BusyUpdate<P>(ws: seq<Worker<P>>, i: nat, w: Worker<P>)
    requires i < |ws|
    ensures Busy(ws[i := w]) == Busy(ws) + (if w.Working? then 1 else 0) - (if ws[i].Working? then 1 else 0)
    decreases |ws|
  {
    var n := |ws| - 1;
    if i == n {
      assert ws[i := w][..n] == ws[..n];
    } else {
      assert ws[i := w][..n] == ws[..n][i := w];
      BusyUpdate(ws[..n], i, w);
    }
  }

  function Rank<P>(j: Job<P>, s: System<P>): int {
    (|Messages(j)| - s.put) + 2 * (|Messages(j)| - |s.taken|) + Busy(s.workers) + (Threads(j) - s.joined)
  }

  lemma RankDrops<P>(j: Job<P>, s: System<P>, l: Label)
    requires Inv(j, s) && Enabled(j, s, l)
    ensures 0 <= Rank(j, Step(j, s, l)) < Rank(j, s)
  {
    var s' := Step(j, s, l);
    InvStep(j, s, l);
    assert |s'.taken| + |s'.queue| == s'.put;
    if l.Take? || l.Finish? {
      BusyUpdate(s.workers, l.w, s'.workers[l.w]);
    }
  }

  lemma {:induction false} FreshNoneBusy<P>(n: nat)
    ensures Busy(seq(n, _ => Worker<P>.Waiting)) == 0
  {
    if n > 0 {
      FreshNoneBusy<P>(n - 1);
      assert seq(n, _ => Worker<P>.Waiting)[..n-1] == seq(n - 1, _ => Worker<P>.Waiting);
    }
  }

  /** No run is longer than three steps a message and one a worker. */
  lemma {:induction false} RunsAreBounded<P>(j: Job<P>, ls: seq<Label>)
    requires Run(j, ls).Some?
    ensures |ls| + Rank(j, Run(j, ls).value) <= 3 * |Messages(j)| + Threads(j)
    ensures |ls| <= 3 * |Messages(j)| + Threads(j)
    decreases |ls|
  {
    RunInv(j, ls);
    if ls == [] {
      FreshNoneBusy<P>(Threads(j));
    } else {
      RunsAreBounded(j, ls[..|ls|-1]);
      RunInv(j, ls[..|ls|-1]);
      RankDrops(j, Run(j, ls[..|ls|-1]).value, ls[|ls|-1]);
    }
  }

  // ---------------------------------------------------------------- what has been attempted

  /** The processes a pool of `n` workers gets to when it goes through the list one by one and loses a
      worker with each call that raises. */
  function Attempted<P>(list: seq<P>, raises: P -> bool, n: int): seq<P> {
    if list == [] || n <= 0 then []
    else [list[0]] + Attempted(list[1..], raises, if raises(list[0]) then n - 1 else n)
  }

  function Raising<P>(list: seq<P>, raises: P -> bool): nat {
    if list == [] then 0 else (if raises(list[0]) then 1 else 0) + Raising(list[1..], raises)
  }

  lemma {:induction false} AttemptedPrefix<P>(list: seq<P>, raises: P -> bool, n: int, k: nat)
    requires k <= |list| && (k == |list| || Raising(list[..k], raises) >= n)
    requires k > 0 ==> Raising(list[..k-1], raises) < n
    ensures Attempted(list, raises, n) == list[..k]
    decreases |list|
  {
    if k > 0 {
      var n' := if raises(list[0]) then n - 1 else n;
      assert list[..k][1..] == list[1..][..k-1];
      if k > 1 {
        assert list[..k-1][1..] == list[1..][..k-2];
        AttemptedPrefix(list[1..], raises, n', k - 1);
      } else {
        AttemptedFirst(list[1..], raises, n');
      }
      assert list[..k] == [list[0]] + list[1..][..k-1];
    }
  }

  lemma AttemptedFirst<P>(list: seq<P>, raises: P -> bool, n: int)
    requires list == [] || n <= 0
    ensures Attempted(list, raises, n) == list[..0]
  {
  }

  lemma {:induction false} AttemptedShort<P>(list: seq<P>, raises: P -> bool, n: int)
    requires list != [] && Raising(list[..|list|-1], raises) >= n
    ensures |Attempted(list, raises, n)| < |list|
    decreases |list|
  {
    if n > 0 {
      assert list[..|list|-1][1..] == list[1..][..|list|-2];
      AttemptedShort(list[1..], raises, if raises(list[0]) then n - 1 else n);
    }
  }

  /** Every process is attempted exactly when the calls that raise before the last one are fewer than
      the workers. */
  lemma AttemptedAllIff<P>(list: seq<P>, raises: P -> bool, n: int)
    requires list != []
    ensures Attempted(list, raises, n) == list <==> Raising(list[..|list|-1], raises) < n
  {
    if Raising(list[..|list|-1], raises) < n {
      AttemptedPrefix(list, raises, n, |list|);
      assert list[..|list|] == list;
    } else {
      AttemptedShort(list, raises, n);
    }
  }

  /** The processes `process_stop` was called for. */
  function Stops<P>(ms: seq<Message<P>>): seq<P> {
    if ms == [] then []
    else Stops(ms[..|ms|-1]) + if ms[|ms|-1].Quit? then [] else [ms[|ms|-1].process]
  }

  lemma {:induction false} RaisingPush<P>(list: seq<P>, raises: P -> bool, p: P)
    ensures Raising(list + [p], raises) == Raising(list, raises) + if raises(p) then 1 else 0
    decreases |list|
  {
    if list != [] {
      assert (list + [p])[1..] == list[1..] + [p];
      RaisingPush(list[1..], raises, p);
    } else {
      assert (list + [p])[1..] == [];
    }
  }

  /** The messages begin with the processes in order. */
  lemma {:induction false} PrefixIsList<P>(j: Job<P>, t: nat)
    requires t <= |j.list|
    ensures Stops(Messages(j)[..t]) == j.list[..t]
    ensures Cost(j, Messages(j)[..t]) == Raising(j.list[..t], j.raises)
  {
    if t > 0 {
      PrefixIsList(j, t - 1);
      assert Messages(j)[..t][..t-1] == Messages(j)[..t-1];
      assert j.list[..t] == j.list[..t-1] + [j.list[t-1]];
      RaisingPush(j.list[..t-1], j.raises, j.list[t-1]);
    }
  }

  lemma {:induction false} RestIsQuits<P>(j: Job<P>, t: nat)
    requires |j.list| <= t <= |Messages(j)|
    ensures Stops(Messages(j)[..t]) == j.list
    ensures Cost(j, Messages(j)[..t]) == Raising(j.list, j.raises) + (t - |j.list|)
  {
    if t == |j.list| {
      PrefixIsList(j, t);
      assert j.list[..t] == j.list;
    } else {
      RestIsQuits(j, t - 1);
      assert Messages(j)[..t][..t-1] == Messages(j)[..t-1];
      assert Messages(j)[..t][t-1] == Quit;
    }
  }

  lemma TakenIsPrefix<P>(j: Job<P>, s: System<P>)
    requires Fifo(j, s)
    ensures |s.taken| <= |Messages(j)| && s.taken == Messages(j)[..|s.taken|]
  {
    assert s.taken == (s.taken + s.queue)[..|s.taken|];
  }

  lemma TakenWithinList<P>(j: Job<P>, s: System<P>)
    requires Inv(j, s) && Cost(j, s.taken) == Threads(j) && |s.taken| <= |j.list|
    ensures Stops(s.taken) == Attempted(j.list, j.raises, Threads(j))
  {
    TakenIsPrefix(j, s);
    var t := |s.taken|;
    PrefixIsList(j, t);
    if t > 0 {
      PrefixIsList(j, t - 1);
      assert s.taken[..t-1] == Messages(j)[..t-1];
    }
    AttemptedPrefix(j.list, j.raises, Threads(j), t);
  }

  lemma TakenBeyondList<P>(j: Job<P>, s: System<P>)
    requires Inv(j, s) && Cost(j, s.taken) == Threads(j) && |s.taken| > |j.list|
    ensures Stops(s.taken) == Attempted(j.list, j.raises, Threads(j))
  {
    TakenIsPrefix(j, s);
    RestIsQuits(j, |s.taken|);
    var m := |j.list|;
    assert j.list[..m] == j.list;
    if m > 0 {
      assert j.list == j.list[..m-1] + [j.list[m-1]];
      RaisingPush(j.list[..m-1], j.raises, j.list[m-1]);
    }
    AttemptedPrefix(j.list, j.raises, Threads(j), m);
  }

  /** When `stop_parallel` returns, whatever the schedule, every worker has left and the processes
      attempted are those the pool gets to when it goes through the list one by one. */
  lemma ReturnedMeansAttempted<P>(j: Job<P>, ls: seq<Label>)
    requires Run(j, ls).Some? && Returned(j, Run(j, ls).value)
    ensures var s := Run(j, ls).value;
            && (forall w :: 0 <= w < |s.workers| ==> s.workers[w].Gone?)
            && Stops(s.taken) == Attempted(j.list, j.raises, Threads(j))
  {
    var s := Run(j, ls).value;
    RunInv(j, ls);
    LostBounds(j, s.workers);
    if |s.taken| <= |j.list| {
      TakenWithinList(j, s);
    } else {
      TakenBeyondList(j, s);
    }
  }

  /** Without calls that raise, every process is stopped once, the queue is left empty, and every worker
      has taken exactly one quit message, unless no thread was asked for. */
  lemma AllStopped<P>(j: Job<P>, ls: seq<Label>)
    requires Run(j, ls).Some? && Returned(j, Run(j, ls).value)
    requires j.threads >= 1 && forall p :: p in j.list ==> !j.raises(p)
    ensures var s := Run(j, ls).value;
            && Stops(s.taken) == j.list && s.queue == [] && |s.taken| == |j.list| + Threads(j) && |s.takers| == |s.taken|
            && (forall w :: 0 <= w < |s.workers| ==> Quitted(s, w))
            && (forall w, k, k' :: TookQuit(s, k, w) && TookQuit(s, k', w) ==> k == k')
  {
    var s := Run(j, ls).value;
    EachTookOne(j, ls);
    RunInv(j, ls);
    LostBounds(j, s.workers);
    TakenIsPrefix(j, s);
    NoneRaise(j.list, j.raises);
    var t := |s.taken|;
    if t < |j.list| {
      PrefixIsList(j, t);
      NoneRaise(j.list[..t], j.raises);
    } else {
      RestIsQuits(j, t);
    }
    assert |s.taken| + |s.queue| == s.put;
  }

  lemma EachTookOne<P>(j: Job<P>, ls: seq<Label>)
    requires Run(j, ls).Some? && Returned(j, Run(j, ls).value) && forall p :: p in j.list ==> !j.raises(p)
    ensures var s := Run(j, ls).value;
            && |s.takers| == |s.taken|
            && (forall w :: 0 <= w < |s.workers| ==> Quitted(s, w))
            && (forall w, k, k' :: TookQuit(s, k, w) && TookQuit(s, k', w) ==> k == k')
  {
    var s := Run(j, ls).value;
    RunInv(j, ls);
    RunQuits(j, ls);
    RunOnList(j, ls);
    forall w | 0 <= w < |s.workers|
      ensures Quitted(s, w)
    {
      assert s.workers[w] == Gone(false);
    }
  }

  lemma {:induction false} NoneRaise<P>(list: seq<P>, raises: P -> bool)
    requires forall i :: 0 <= i < |list| ==> !raises(list[i])
    ensures Raising(list, raises) == 0
    decreases |list|
  {
    if list != [] {
      NoneRaise(list[1..], raises);
    }
  }

  /** As many workers as threads were asked for, but no more than there are processes, and none for a number
      that is not positive. */
  lemma PoolSize<P>(j: Job<P>, ls: seq<Label>)
    requires Run(j, ls).Some?
    ensures var n := |Run(j, ls).value.workers|;
            && n <= |j.list| && (j.threads >= 0 ==> n <= j.threads) && (j.threads < 0 ==> n == 0)
            && (n == |j.list| || n == j.threads || j.threads < 0)
  {
    RunInv(j, ls);
  }

  /** The queue never holds more messages than there are processes. */
  lemma {:induction false} QueueBounded<P>(j: Job<P>, ls: seq<Label>)
    requires Run(j, ls).Some?
    ensures |Run(j, ls).value.queue| <= |j.list|
    decreases |ls|
  {
    if ls != [] {
      QueueBounded(j, ls[..|ls|-1]);
    }
  }
}
