/** Allocation of dynamic fids by several hax processes sharing the counters and the locks kept in the
    KV store (hax/hax/util.py). */
module FidAllocation {
  import opened Fids
  import opened FidKeys

  /** The classes of objects that have a counter, each with its own lock. */
  datatype Class = Processes | Services

  function Container(c: Class): int {
    if c.Processes? then PROCESS else SERVICE
  }

  /** Where an allocator is in `get_obj_next_dynamic_fidk_lock`, for an object of class `cls` with
      configured key `key`. */
  datatype Phase =
    | Idle
    | Wanting(cls: Class, key: int)
    | Locked(cls: Class, key: int)
    | HasRead(cls: Class, key: int, value: int)
    | Written(cls: Class, key: int, value: int)
    | Crashed

  datatype Allocation = Allocation(cls: Class, key: int, value: int)

  function NewFid(a: Allocation): Fid {
    Fid(Container(a.cls), FullKey(a.key, a.value))
  }

  /** `locks` maps a class to the owner its lock entry names; `revokers` holds, for each thread in
      `revoke_all_dynamic_fidk_lock_for`, the entries it has found and will delete; `done` lists the counters
      returned. */
  datatype System = System(
    locks: map<Class, nat>, counters: Class -> int, phases: seq<Phase>, revokers: seq<set<Class>>, done: seq<Allocation>)

  /** How many allocators and revokers there are, whether locks may be revoked for a process that is still
      running, and whether a delete may be carried out although its caller is told that it failed. */
  datatype Env = Env(n: nat, revokers: nat, revokesLive: bool, losesReplies: bool)

  datatype Label =
    | Begin(a: nat, cls: Class, key: int)
    | Lock(a: nat)
    | LockLost(a: nat)
    | Read(a: nat)
    | ReadFails(a: nat)
    | Write(a: nat)
    | WriteFails(a: nat, applied: bool)
    | Unlock(a: nat)
    | UnlockLost(a: nat)
    | UnlockFails(a: nat, applied: bool)
    | Crash(a: nat)
    | RevokeRead(r: nat, owner: nat)
    | RevokeDelete(r: nat)
    | RevokeLost(r: nat)
    | RevokeFails(r: nat)

  predicate Revoking(l: Label) {
    l.RevokeRead? || l.RevokeDelete? || l.RevokeLost? || l.RevokeFails?
  }

  predicate Enabled(e: Env, s: System, l: Label) {
    && (if Revoking(l) then l.r < |s.revokers| else l.a < |s.phases|)
    && match l
       case Begin(a, c, k) => s.phases[a].Idle?
       case Lock(a) => s.phases[a].Wanting? && s.phases[a].cls !in s.locks
       case LockLost(a) => s.phases[a].Wanting? && s.phases[a].cls !in s.locks
       case Read(a) => s.phases[a].Locked?
       case ReadFails(a) => s.phases[a].Locked?
       case Write(a) => s.phases[a].HasRead?
       case WriteFails(a, _) => s.phases[a].HasRead?
       case Unlock(a) => s.phases[a].Written?
       case UnlockLost(a) => s.phases[a].Written? && e.losesReplies
       case UnlockFails(a, _) => s.phases[a].Written?
       case Crash(a) => !s.phases[a].Crashed?
       case RevokeRead(r, owner) => owner < |s.phases| && (s.phases[owner].Crashed? || e.revokesLive) && s.revokers[r] == {}
       case RevokeDelete(r) => true
       case RevokeLost(r) => e.losesReplies
       case RevokeFails(r) => true
  }

  function Without(locks: map<Class, nat>, c: Class): map<Class, nat> {
    map d | d in locks && d != c :: locks[d]
  }

  /** The lock entries naming `owner`. */
  function OwnedBy(locks: map<Class, nat>, owner: nat): set<Class> {
    set c | c in locks && locks[c] == owner
  }

  function Put(counters: Class -> int, c: Class, v: int): Class -> int {
    d => if d == c then v else counters(d)
  }

  function Move(s: System, a: nat, p: Phase): System
    requires a < |s.phases|
  {
    s.(phases := s.phases[a := p])
  }

  /** A failed read or write makes the whole call start again, with the lock still held; a failed
      delete ends it with an error.  Deletes do not look at the owner. */
  function Step(e: Env, s: System, l: Label): System
    requires Enabled(e, s, l)
  {
    match l
    case Begin(a, c, k) => Move(s, a, Wanting(c, k))
    case Lock(a) =>
      var p := s.phases[a];
      Move(s, a, Locked(p.cls, p.key)).(locks := s.locks[p.cls := a])
    case LockLost(a) => Move(s, a, Idle).(locks := s.locks[s.phases[a].cls := a])
    case Read(a) =>
      var p := s.phases[a];
      Move(s, a, HasRead(p.cls, p.key, s.counters(p.cls)))
    case ReadFails(a) => Move(s, a, Wanting(s.phases[a].cls, s.phases[a].key))
    case Write(a) =>
      var p := s.phases[a];
      Move(s, a, Written(p.cls, p.key, p.value + 1)).(counters := Put(s.counters, p.cls, p.value + 1))
    case WriteFails(a, applied) =>
      var p := s.phases[a];
      Move(s, a, Wanting(p.cls, p.key))
        .(counters := if applied then Put(s.counters, p.cls, p.value + 1) else s.counters)
    case Unlock(a) =>
      var p := s.phases[a];
      Move(s, a, Idle).(locks := Without(s.locks, p.cls), done := s.done + [Allocation(p.cls, p.key, p.value)])
    case UnlockLost(a) => s.(locks := Without(s.locks, s.phases[a].cls))
    case UnlockFails(a, applied) =>
      Move(s, a, Idle).(locks := if applied then Without(s.locks, s.phases[a].cls) else s.locks)
    case Crash(a) => Move(s, a, Crashed)
    case RevokeRead(r, owner) => s.(revokers := s.revokers[r := OwnedBy(s.locks, owner)])
    case RevokeDelete(r) => s.(locks := s.locks - s.revokers[r], revokers := s.revokers[r := {}])
    case RevokeLost(r) => s.(locks := s.locks - s.revokers[r])
    case RevokeFails(r) => s.(revokers := s.revokers[r := {}])
  }

  function Start(e: Env, counters: Class -> int): System {
    System(map[], counters, seq(e.n, _ => Idle), seq(e.revokers, _ => {}), [])
  }

  function Run(e: Env, s: System, ls: seq<Label>): Option<System> {
    if ls == [] then Some(s)
    else
      var r := Run(e, s, ls[..|ls|-1]);
      if r.None? || !Enabled(e, r.value, ls[|ls|-1]) then None else Some(Step(e, r.value, ls[|ls|-1]))
  }

  // ---------------------------------------------------------------- invariants

  predicate Critical(p: Phase) {
    p.Locked? || p.HasRead? || p.Written?
  }

  /** Whoever works on a counter owns its lock. */
  predicate Owns(s: System) {
    forall a :: 0 <= a < |s.phases| && Critical(s.phases[a]) ==>
                  s.phases[a].cls in s.locks && s.locks[s.phases[a].cls] == a
  }

  /** At most one allocator works on a counter. */
  predicate Exclusive(s: System) {
    forall a, b | 0 <= a < |s.phases| && 0 <= b < |s.phases| && Critical(s.phases[a]) && Critical(s.phases[b]) ::
      s.phases[a].cls == s.phases[b].cls ==> a == b
  }

  predicate Bounded(s: System, c: Class, v: int) {
    forall i :: 0 <= i < |s.done| && s.done[i].cls == c ==> s.done[i].value <= v
  }

  /** What an allocator knows of the counter, and the counters already returned. */
  predicate Current(s: System, p: Phase) {
    && (p.HasRead? ==> p.value == s.counters(p.cls))
    && (p.Written? ==> p.value == s.counters(p.cls) && Bounded(s, p.cls, p.value - 1))
  }

  predicate Counted(s: System) {
    && (forall c :: Bounded(s, c, s.counters(c)))
    && (forall a :: 0 <= a < |s.phases| ==> Current(s, s.phases[a]))
  }

  /** The counters returned for a class grow strictly. */
  predicate Increasing(done: seq<Allocation>) {
    forall i, j :: 0 <= i < j < |done| && done[i].cls == done[j].cls ==> done[i].value < done[j].value
  }

  /** No allocator can lose its lock while another one is alive: there is but one; or no reply to a delete
      is lost and nobody revokes; or only locks of dead owners are revoked, by one revoker at a time or with
      no two allocators left besides the dead one. */
  predicate Safe(e: Env) {
    e.n < 2 || (!e.losesReplies && (e.revokers == 0 || (!e.revokesLive && (e.revokers == 1 || e.n < 3))))
  }

  /** What a revoker is about to delete are locks of the dead. */
  predicate FoundDead(s: System) {
    forall r, c :: 0 <= r < |s.revokers| && c in s.revokers[r] ==>
                     c in s.locks && s.locks[c] < |s.phases| && s.phases[s.locks[c]].Crashed?
  }

  predicate SomeoneDied(s: System) {
    exists a :: 0 <= a < |s.phases| && s.phases[a].Crashed?
  }

  predicate NothingFound(s: System) {
    forall r :: 0 <= r < |s.revokers| ==> s.revokers[r] == {}
  }

  /** Why at most one allocator works on a counter: each owns its lock and no lock of the living is about to
      be deleted, or, with two allocators, one of them is dead. */
  predicate Guarded(e: Env, s: System) {
    || e.n < 2
    || (Owns(s) && FoundDead(s) && (e.revokers <= 1 || NothingFound(s)))
    || (e.n == 2 && SomeoneDied(s))
  }

  predicate Inv(e: Env, s: System) {
    |s.phases| == e.n && |s.revokers| == e.revokers && Guarded(e, s) && Counted(s) && Increasing(s.done)
  }

  lemma OwnsExclusive(s: System)
    requires Owns(s)
    ensures Exclusive(s)
  {
  }

  lemma GuardedExclusive(e: Env, s: System)
    requires |s.phases| == e.n && Guarded(e, s)
    ensures Exclusive(s)
  {
    if Owns(s) {
      OwnsExclusive(s);
    }
  }

  /** Steps of allocators. */
  lemma OwnsStep(e: Env, s: System, l: Label)
    requires Owns(s) && Enabled(e, s, l) && !Revoking(l) && !l.UnlockLost?
    ensures Owns(Step(e, s, l))
  {
  }

  lemma FoundDeadStep(e: Env, s: System, l: Label)
    requires Owns(s) && FoundDead(s) && Enabled(e, s, l) && !Revoking(l) && !l.UnlockLost?
    ensures FoundDead(Step(e, s, l)) && Step(e, s, l).revokers == s.revokers
  {
  }

  /** Steps of revokers that look for the locks of the dead, one at a time. */
  lemma RevokingStep(e: Env, s: System, l: Label)
    requires Owns(s) && FoundDead(s) && Enabled(e, s, l) && Revoking(l) && !l.RevokeLost? && !e.revokesLive
    requires |s.revokers| == 1
    ensures Owns(Step(e, s, l)) && FoundDead(Step(e, s, l))
  {
    var t := Step(e, s, l);
    forall a | 0 <= a < |t.phases| && Critical(t.phases[a])
      ensures t.phases[a].cls in t.locks && t.locks[t.phases[a].cls] == a
    {
      assert s.phases[a].cls in s.locks && s.locks[s.phases[a].cls] == a;
    }
  }

  lemma DeathStays(e: Env, s: System, l: Label)
    requires SomeoneDied(s) && Enabled(e, s, l)
    ensures SomeoneDied(Step(e, s, l))
  {
    var a :| 0 <= a < |s.phases| && s.phases[a].Crashed?;
    assert Step(e, s, l).phases[a].Crashed?;
  }

  lemma GuardedStep(e: Env, s: System, l: Label)
    requires Safe(e) && |s.phases| == e.n && |s.revokers| == e.revokers && Guarded(e, s) && Enabled(e, s, l)
    ensures Guarded(e, Step(e, s, l))
  {
    if e.n == 2 && SomeoneDied(s) {
      DeathStays(e, s, l);
    } else if e.n >= 2 {
      if !Revoking(l) {
        OwnsStep(e, s, l);
        FoundDeadStep(e, s, l);
      } else if e.revokers == 1 {
        RevokingStep(e, s, l);
      } else {
        assert l.RevokeRead? ==> SomeoneDied(s);
      }
    }
  }

  lemma IncreasingStep(e: Env, s: System, l: Label)
    requires Increasing(s.done) && Counted(s) && Enabled(e, s, l)
    ensures Increasing(Step(e, s, l).done)
  {
    if !Revoking(l) {
      assert Current(s, s.phases[l.a]);
    }
  }

  lemma CountedStep(e: Env, s: System, l: Label)
    requires Exclusive(s) && Counted(s) && Enabled(e, s, l)
    ensures Counted(Step(e, s, l))
  {
    var s' := Step(e, s, l);
    if !Revoking(l) {
      assert Current(s, s.phases[l.a]);
    }
    forall c
      ensures Bounded(s', c, s'.counters(c))
    {
      assert Bounded(s, c, s.counters(c));
    }
    forall a | 0 <= a < |s'.phases|
      ensures Current(s', s'.phases[a])
    {
      assert Current(s, s.phases[a]);
    }
  }

  lemma InvStep(e: Env, s: System, l: Label)
    requires Safe(e) && Inv(e, s) && Enabled(e, s, l)
    ensures Inv(e, Step(e, s, l))
  {
    GuardedExclusive(e, s);
    IncreasingStep(e, s, l);
    CountedStep(e, s, l);
    GuardedStep(e, s, l);
  }

  lemma {:induction false} RunInv(e: Env, counters: Class -> int, ls: seq<Label>)
    requires Safe(e)
    ensures Run(e, Start(e, counters), ls).Some? ==> Inv(e, Run(e, Start(e, counters), ls).value)
    decreases |ls|
  {
    if ls != [] {
      RunInv(e, counters, ls[..|ls|-1]);
      var r := Run(e, Start(e, counters), ls[..|ls|-1]);
      if r.Some? && Enabled(e, r.value, ls[|ls|-1]) {
        InvStep(e, r.value, ls[|ls|-1]);
      }
    }
  }

  // ---------------------------------------------------------------- theorems

  /** Two returned fids differ, whatever was allocated for which configured object. */
  lemma FidsDistinct(e: Env, counters: Class -> int, ls: seq<Label>, i: nat, j: nat)
    requires Safe(e) && Run(e, Start(e, counters), ls).Some?
    requires i < j < |Run(e, Start(e, counters), ls).value.done|
    requires var done := Run(e, Start(e, counters), ls).value.done;
             0 <= done[i].key < TWO_32 && 0 <= done[j].key < TWO_32
    ensures var done := Run(e, Start(e, counters), ls).value.done; NewFid(done[i]) != NewFid(done[j])
  {
    var done := Run(e, Start(e, counters), ls).value.done;
    RunInv(e, counters, ls);
    FullKeyInjective(done[i].key, done[i].value, done[j].key, done[j].value);
  }

  /** The step writes the counter of class `c`. */
  predicate Writes(e: Env, s: System, l: Label, c: Class) {
    Enabled(e, s, l) && (l.Write? || (l.WriteFails? && l.applied)) && s.phases[l.a].cls == c
  }

  function WritesOf(e: Env, s: System, ls: seq<Label>, c: Class): nat {
    if ls == [] then 0
    else
      var r := Run(e, s, ls[..|ls|-1]);
      WritesOf(e, s, ls[..|ls|-1], c) + if r.Some? && Writes(e, r.value, ls[|ls|-1], c) then 1 else 0
  }

  lemma CounterStep(e: Env, s: System, l: Label, c: Class)
    requires Counted(s) && Enabled(e, s, l)
    ensures Step(e, s, l).counters(c) == s.counters(c) + if Writes(e, s, l, c) then 1 else 0
  {
    if !Revoking(l) {
      assert Current(s, s.phases[l.a]);
    }
  }

  /** Counters go up by one with each write, and a call returns the counter as it then is. */
  lemma {:induction false} CountersExact(e: Env, counters: Class -> int, ls: seq<Label>, c: Class)
    requires Safe(e) && Run(e, Start(e, counters), ls).Some?
    ensures Run(e, Start(e, counters), ls).value.counters(c) == counters(c) + WritesOf(e, Start(e, counters), ls, c)
    decreases |ls|
  {
    if ls != [] {
      CountersExact(e, counters, ls[..|ls|-1], c);
      RunInv(e, counters, ls[..|ls|-1]);
      CounterStep(e, Run(e, Start(e, counters), ls[..|ls|-1]).value, ls[|ls|-1], c);
    }
  }

  lemma ReturnsCounter(e: Env, counters: Class -> int, ls: seq<Label>, s: System, a: nat)
    requires Safe(e) && Run(e, Start(e, counters), ls) == Some(s) && Enabled(e, s, Unlock(a))
    ensures var p := s.phases[a];
            Step(e, s, Unlock(a)).done == s.done + [Allocation(p.cls, p.key, counters(p.cls) + WritesOf(e, Start(e, counters), ls, p.cls))]
  {
    RunInv(e, counters, ls);
    assert Current(s, s.phases[a]);
    CountersExact(e, counters, ls, s.phases[a].cls);
  }

  ghost predicate Reached(e: Env, s: System, t: System) {
    exists ls :: Run(e, s, ls) == Some(t)
  }

  predicate Distinct(done: seq<Allocation>) {
    forall i, j :: 0 <= i < j < |done| && done[i].cls == done[j].cls ==> done[i].value != done[j].value
  }

  /** No counter is returned twice, in any run. */
  ghost predicate NeverTwice(e: Env) {
    forall counters: Class -> int, t :: Reached(e, Start(e, counters), t) ==> Distinct(t.done)
  }

  lemma SafeNeverTwice(e: Env)
    requires Safe(e)
    ensures NeverTwice(e)
  {
    forall counters: Class -> int, t | Reached(e, Start(e, counters), t)
      ensures Distinct(t.done)
    {
      var ls :| Run(e, Start(e, counters), ls) == Some(t);
      RunInv(e, counters, ls);
    }
  }

  lemma Then(e: Env, s: System, t: System, l: Label)
    requires Reached(e, s, t) && Enabled(e, t, l)
    ensures Reached(e, s, Step(e, t, l))
  {
    var ls :| Run(e, s, ls) == Some(t);
    assert (ls + [l])[..|ls|] == ls;
    assert Run(e, s, ls + [l]) == Some(Step(e, t, l));
  }

  /** Allocator `a` up to its read. */
  lemma UpToRead(e: Env, s: System, t: System, a: nat, c: Class, key: int) returns (u: System)
    requires Reached(e, s, t) && a < |t.phases| && t.phases[a].Idle? && c !in t.locks
    ensures Reached(e, s, u) && u == Move(t, a, HasRead(c, key, t.counters(c))).(locks := t.locks[c := a])
  {
    Then(e, s, t, Begin(a, c, key));
    var t1 := Step(e, t, Begin(a, c, key));
    Then(e, s, t1, Lock(a));
    var t2 := Step(e, t1, Lock(a));
    Then(e, s, t2, Read(a));
    u := Step(e, t2, Read(a));
    assert u.phases == t.phases[a := HasRead(c, key, t.counters(c))];
  }

  lemma WriteMoves(e: Env, t: System, a: nat)
    requires a < |t.phases| && t.phases[a].HasRead?
    ensures Enabled(e, t, Write(a))
    ensures var p, u := t.phases[a], Step(e, t, Write(a));
            u.phases == t.phases[a := Written(p.cls, p.key, p.value + 1)] && u.locks == t.locks && u.done == t.done
  {
  }

  lemma UnlockMoves(e: Env, t: System, a: nat)
    requires a < |t.phases| && t.phases[a].Written?
    ensures Enabled(e, t, Unlock(a))
    ensures var p, u := t.phases[a], Step(e, t, Unlock(a));
            && u.phases == t.phases[a := Idle] && u.locks == Without(t.locks, p.cls)
            && u.done == t.done + [Allocation(p.cls, p.key, p.value)]
  {
  }

  /** Allocator `a` from its read to the end. */
  lemma FromRead(e: Env, s: System, t: System, a: nat) returns (u: System)
    requires Reached(e, s, t) && a < |t.phases| && t.phases[a].HasRead?
    ensures var p := t.phases[a];
            && Reached(e, s, u)
            && u.phases == t.phases[a := Idle] && u.locks == Without(t.locks, p.cls)
            && u.done == t.done + [Allocation(p.cls, p.key, p.value + 1)]
  {
    WriteMoves(e, t, a);
    Then(e, s, t, Write(a));
    var t1 := Step(e, t, Write(a));
    UnlockMoves(e, t1, a);
    Then(e, s, t1, Unlock(a));
    u := Step(e, t1, Unlock(a));
  }

  /** Once the lock of an allocator that has read the counter is gone, another one gets the same value. */
  lemma SameValue(e: Env, s: System, t: System, a: nat, b: nat)
    requires Reached(e, s, t) && a < |t.phases| && b < |t.phases| && a != b
    requires t.phases[a].HasRead? && t.phases[a].value == t.counters(t.phases[a].cls)
    requires t.phases[b].Idle? && t.phases[a].cls !in t.locks
    ensures exists u :: Reached(e, s, u) && !Distinct(u.done)
  {
    var c, k, v := t.phases[a].cls, t.phases[a].key, t.phases[a].value + 1;
    var t1 := UpToRead(e, s, t, b, c, k);
    var t2 := FromRead(e, s, t1, b);
    var u := FromRead(e, s, t2, a);
    assert u.done[|t.done|] == u.done[|t.done| + 1] == Allocation(c, k, v);
  }

  /** A revoker that has found the locks of `owner` deletes them. */
  lemma Revoked(e: Env, s: System, t: System, r: nat, owner: nat) returns (u: System)
    requires Reached(e, s, t) && Enabled(e, t, RevokeRead(r, owner))
    ensures Reached(e, s, u) && u.phases == t.phases && u.counters == t.counters
    ensures u.locks == t.locks - OwnedBy(t.locks, owner)
    ensures |u.revokers| == |t.revokers| && forall q :: 0 <= q < |t.revokers| && q != r ==> u.revokers[q] == t.revokers[q]
  {
    Then(e, s, t, RevokeRead(r, owner));
    var t1 := Step(e, t, RevokeRead(r, owner));
    Then(e, s, t1, RevokeDelete(r));
    u := Step(e, t1, RevokeDelete(r));
  }

  lemma RevokedAlive(e: Env, counters: Class -> int)
    requires e.n >= 2 && e.revokesLive && e.revokers >= 1
    ensures exists u :: Reached(e, Start(e, counters), u) && !Distinct(u.done)
  {
    var s := Start(e, counters);
    assert Run(e, s, []) == Some(s);
    var t := UpToRead(e, s, s, 0, Processes, 1);
    var u := Revoked(e, s, t, 0, 0);
    SameValue(e, s, u, 0, 1);
  }

  /** Allocator 0 has died holding its lock. */
  lemma DiedHolding(e: Env, s: System) returns (t: System)
    requires s.phases == seq(e.n, _ => Idle) && s.locks == map[] && e.n >= 3
    ensures Reached(e, s, t) && t.locks == map[Processes := 0] && t.revokers == s.revokers
    ensures |t.phases| == e.n && t.phases[0].Crashed? && t.phases[1].Idle? && t.phases[2].Idle?
  {
    assert Run(e, s, []) == Some(s);
    var t0 := UpToRead(e, s, s, 0, Processes, 1);
    Then(e, s, t0, Crash(0));
    t := Step(e, t0, Crash(0));
    assert t == Move(t0, 0, Crashed);
  }

  /** Two revokers find the lock of a dead allocator, one deletes it, the next owner gets to work, and the
      other revoker deletes its lock. */
  lemma RevokedTwice(e: Env, counters: Class -> int)
    requires e.n >= 3 && e.revokers >= 2
    ensures exists u :: Reached(e, Start(e, counters), u) && !Distinct(u.done)
  {
    var s := Start(e, counters);
    var t1 := DiedHolding(e, s);
    Then(e, s, t1, RevokeRead(0, 0));
    var t2 := Step(e, t1, RevokeRead(0, 0));
    assert t2 == t1.(revokers := t1.revokers[0 := OwnedBy(t1.locks, 0)]);
    assert Processes in t2.revokers[0];
    var t3 := Revoked(e, s, t2, 1, 0);
    var t4 := UpToRead(e, s, t3, 1, Processes, 1);
    Then(e, s, t4, RevokeDelete(0));
    var t5 := Step(e, t4, RevokeDelete(0));
    assert Processes !in t5.locks && t5.phases[2].Idle?;
    SameValue(e, s, t5, 1, 2);
  }

  /** Allocator 0 has deleted its lock, but was told that the delete failed. */
  lemma DeletedUnawares(e: Env, s: System) returns (t: System)
    requires s.phases == seq(e.n, _ => Idle) && s.locks == map[] && e.n >= 2 && e.losesReplies
    ensures Reached(e, s, t) && t.locks == map[] && |t.phases| == e.n
    ensures t.phases[0].Written? && t.phases[0].cls == Processes && t.phases[1].Idle?
  {
    assert Run(e, s, []) == Some(s);
    var t0 := UpToRead(e, s, s, 0, Processes, 1);
    Then(e, s, t0, Write(0));
    var t1 := Step(e, t0, Write(0));
    Then(e, s, t1, UnlockLost(0));
    t := Step(e, t1, UnlockLost(0));
    assert t.locks == map[];
  }

  /** The repeated delete removes the lock the other allocator has taken in between. */
  lemma DeletedTwice(e: Env, counters: Class -> int)
    requires e.n >= 2 && e.losesReplies
    ensures exists u :: Reached(e, Start(e, counters), u) && !Distinct(u.done)
  {
    var s := Start(e, counters);
    var t2 := DeletedUnawares(e, s);
    var t3 := UpToRead(e, s, t2, 1, Processes, 1);
    Then(e, s, t3, Unlock(0));
    SameValue(e, s, Step(e, t3, Unlock(0)), 1, 0);
  }

  /** Exactly when no counter can be returned twice. */
  lemma NeverTwiceIff(e: Env)
    ensures NeverTwice(e) <==> Safe(e)
  {
    if Safe(e) {
      SafeNeverTwice(e);
    } else {
      var counters: Class -> int := _ => 0;
      if e.losesReplies {
        DeletedTwice(e, counters);
      } else if e.revokesLive {
        RevokedAlive(e, counters);
      } else {
        RevokedTwice(e, counters);
      }
    }
  }

  // ---------------------------------------------------------------- a lock left behind

  /** The lock of `c` names `a`, nobody works under it, and no revoker has found it. */
  predicate LeftBehind(s: System, c: Class, a: nat) {
    && c in s.locks && s.locks[c] == a
    && (forall b :: 0 <= b < |s.phases| && Critical(s.phases[b]) ==> s.phases[b].cls != c)
    && (forall r :: 0 <= r < |s.revokers| ==> c !in s.revokers[r])
  }

  function DoneOf(done: seq<Allocation>, c: Class): seq<Allocation> {
    if done == [] then []
    else DoneOf(done[..|done|-1], c) + if done[|done|-1].cls == c then [done[|done|-1]] else []
  }

  lemma LeftBehindStep(e: Env, s: System, l: Label, c: Class, a: nat)
    requires LeftBehind(s, c, a) && Enabled(e, s, l) && !(l.RevokeRead? && l.owner == a)
    ensures LeftBehind(Step(e, s, l), c, a)
  {
  }

  lemma NothingDone(e: Env, s: System, l: Label, c: Class, a: nat)
    requires LeftBehind(s, c, a) && Enabled(e, s, l)
    ensures DoneOf(Step(e, s, l).done, c) == DoneOf(s.done, c)
  {
    if l.Unlock? {
      assert Step(e, s, l).done[..|s.done|] == s.done;
    }
  }

  /** A call that failed while holding the lock starts again by waiting for it, and so does everyone
      else: nothing of that class is allocated any more until someone revokes the owner's locks. */
  lemma {:induction false} NothingMoreAllocated(e: Env, s: System, ls: seq<Label>, c: Class, a: nat)
    requires LeftBehind(s, c, a) && Run(e, s, ls).Some?
    requires forall i :: 0 <= i < |ls| ==> !(ls[i].RevokeRead? && ls[i].owner == a)
    ensures LeftBehind(Run(e, s, ls).value, c, a)
    ensures DoneOf(Run(e, s, ls).value.done, c) == DoneOf(s.done, c)
    decreases |ls|
  {
    if ls != [] {
      NothingMoreAllocated(e, s, ls[..|ls|-1], c, a);
      LeftBehindStep(e, Run(e, s, ls[..|ls|-1]).value, ls[|ls|-1], c, a);
      NothingDone(e, Run(e, s, ls[..|ls|-1]).value, ls[|ls|-1], c, a);
    }
  }

  /** The failures after which a lock is left behind. */
  lemma FailureLeavesLock(e: Env, s: System, l: Label)
    requires Owns(s) && Enabled(e, s, l)
    requires l.LockLost? || l.ReadFails? || l.WriteFails? || (l.UnlockFails? && !l.applied) ||
             (l.Crash? && Critical(s.phases[l.a]))
    requires forall r :: 0 <= r < |s.revokers| ==> s.phases[l.a].cls !in s.revokers[r]
    ensures LeftBehind(Step(e, s, l), s.phases[l.a].cls, l.a)
  {
    OwnsStep(e, s, l);
  }
}
