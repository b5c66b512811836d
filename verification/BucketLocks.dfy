/** The bucket locks of `ProcessGroup` shared by several threads (hax/hax/util.py), taken by two kinds of
    calls of hax/hax/handler.py: an iteration of `update_process_failure`, which releases its lock on an
    exception, and `_update_process_status`, which does not. */
module BucketLocks {
  import opened Fids

  datatype Call = FailureUpdate | StatusUpdate

  /** A thread outside, waiting for bucket `b`, or holding it. */
  datatype Thread = Outside | Waiting(b: int, call: Call) | Inside(b: int, call: Call)

  datatype System = System(locked: set<int>, threads: seq<Thread>)

  datatype Label = Ask(t: nat, key: int, call: Call) | Acquire(t: nat) | Leave(t: nat) | Raise(t: nat)

  predicate Enabled(s: System, l: Label) {
    && l.t < |s.threads|
    && match l
       case Ask(t, _, _) => s.threads[t].Outside?
       case Acquire(t) => s.threads[t].Waiting? && s.threads[t].b !in s.locked
       case Leave(t) => s.threads[t].Inside?
       case Raise(t) => s.threads[t].Inside?
  }

  /** The step leaves a bucket locked with nobody in it. */
  predicate Leaks(s: System, l: Label, b: int) {
    l.Raise? && Enabled(s, l) && s.threads[l.t] == Inside(b, StatusUpdate)
  }

  function Step(buckets: int, s: System, l: Label): System
    requires buckets > 0 && Enabled(s, l)
  {
    match l
    case Ask(t, key, call) => s.(threads := s.threads[t := Waiting(key % buckets, call)])
    case Acquire(t) =>
      var w := s.threads[t];
      System(s.locked + {w.b}, s.threads[t := Inside(w.b, w.call)])
    case Leave(t) => System(s.locked - {s.threads[t].b}, s.threads[t := Outside])
    case Raise(t) =>
      var w := s.threads[t];
      System(if w.call.FailureUpdate? then s.locked - {w.b} else s.locked, s.threads[t := Outside])
  }

  function Run(buckets: int, s: System, ls: seq<Label>): Option<System>
    requires buckets > 0
  {
    if ls == [] then Some(s)
    else
      match Run(buckets, s, ls[..|ls|-1])
      case None => None
      case Some(t) => if Enabled(t, ls[|ls|-1]) then Some(Step(buckets, t, ls[|ls|-1])) else None
  }

  function Start(n: nat): System {
    System({}, seq(n, _ => Outside))
  }

  /** Whoever is inside holds the lock, alone. */
  predicate Inv(s: System) {
    && (forall t :: 0 <= t < |s.threads| && s.threads[t].Inside? ==> s.threads[t].b in s.locked)
    && (forall t, u :: 0 <= t < u < |s.threads| && s.threads[t].Inside? && s.threads[u].Inside? ==>
                         s.threads[t].b != s.threads[u].b)
  }

  lemma InvStep(buckets: int, s: System, l: Label)
    requires buckets > 0 && Inv(s) && Enabled(s, l)
    ensures Inv(Step(buckets, s, l))
  {
  }

  predicate IsInside(s: System, t: nat, b: int) {
    t < |s.threads| && s.threads[t].Inside? && s.threads[t].b == b
  }

  ghost predicate Leaked(s: System, b: int) {
    b in s.locked && forall t :: !IsInside(s, t, b)
  }

  /** A step leaks a bucket exactly if it is a status update raising in it, and no step undoes that. */
  lemma LeakedStep(buckets: int, s: System, l: Label, b: int)
    requires buckets > 0 && Inv(s) && Enabled(s, l)
    ensures Leaked(Step(buckets, s, l), b) <==> Leaked(s, b) || Leaks(s, l, b)
  {
    var s' := Step(buckets, s, l);
    if Leaks(s, l, b) {
      forall u
        ensures !IsInside(s', u, b)
      {
        assert IsInside(s', u, b) ==> IsInside(s, u, b);
      }
    } else if Leaked(s, b) {
      forall u
        ensures !IsInside(s', u, b)
      {
        assert !IsInside(s, u, b);
      }
      assert !IsInside(s, l.t, b);
    } else if b in s.locked {
      var u :| IsInside(s, u, b);
      assert u != l.t ==> IsInside(s', u, b);
    } else if l.Acquire? && s.threads[l.t].b == b {
      assert IsInside(s', l.t, b);
    }
  }

  ghost predicate LeakedDuring(buckets: int, s: System, ls: seq<Label>, b: int)
    requires buckets > 0
  {
    exists k :: 0 <= k < |ls| && Run(buckets, s, ls[..k]).Some? && Leaks(Run(buckets, s, ls[..k]).value, ls[k], b)
  }

  /** In every run a bucket is locked with nobody in it exactly when some status update raised in it. */
  lemma {:induction false} LeakedIff(buckets: int, n: nat, ls: seq<Label>, b: int)
    requires buckets > 0 && Run(buckets, Start(n), ls).Some?
    ensures Inv(Run(buckets, Start(n), ls).value)
    ensures Leaked(Run(buckets, Start(n), ls).value, b) <==> LeakedDuring(buckets, Start(n), ls, b)
    decreases |ls|
  {
    if ls != [] {
      var front, l := ls[..|ls|-1], ls[|ls|-1];
      LeakedIff(buckets, n, front, b);
      var s := Run(buckets, Start(n), front).value;
      InvStep(buckets, s, l);
      LeakedStep(buckets, s, l, b);
      DuringSnoc(buckets, Start(n), ls, b);
    }
  }

  lemma DuringSnoc(buckets: int, s: System, ls: seq<Label>, b: int)
    requires buckets > 0 && ls != [] && Run(buckets, s, ls[..|ls|-1]).Some?
    ensures LeakedDuring(buckets, s, ls, b) <==>
              LeakedDuring(buckets, s, ls[..|ls|-1], b) || Leaks(Run(buckets, s, ls[..|ls|-1]).value, ls[|ls|-1], b)
  {
    var front := ls[..|ls|-1];
    forall k | 0 <= k < |front| ensures front[..k] == ls[..k] && front[k] == ls[k] {}
  }

  ghost predicate Reaches(buckets: int, s: System, u: System)
    requires buckets > 0
  {
    exists ls :: Run(buckets, s, ls) == Some(u)
  }

  lemma {:induction false} LeakedForever(buckets: int, s: System, ls: seq<Label>, b: int)
    requires buckets > 0 && Inv(s) && Leaked(s, b) && Run(buckets, s, ls).Some?
    ensures Inv(Run(buckets, s, ls).value) && Leaked(Run(buckets, s, ls).value, b)
    decreases |ls|
  {
    if ls != [] {
      LeakedForever(buckets, s, ls[..|ls|-1], b);
      var u := Run(buckets, s, ls[..|ls|-1]).value;
      InvStep(buckets, u, ls[|ls|-1]);
      LeakedStep(buckets, u, ls[|ls|-1], b);
    }
  }

  /** A waiting call can still be served exactly when its bucket is not leaked. */
  lemma ServedIff(buckets: int, s: System, t: nat)
    requires buckets > 0 && Inv(s) && t < |s.threads| && s.threads[t].Waiting?
    ensures (exists u :: Reaches(buckets, s, u) && IsInside(u, t, s.threads[t].b)) <==> !Leaked(s, s.threads[t].b)
  {
    var b := s.threads[t].b;
    if Leaked(s, b) {
      forall u | Reaches(buckets, s, u)
        ensures !IsInside(u, t, b)
      {
        var ls :| Run(buckets, s, ls) == Some(u);
        LeakedForever(buckets, s, ls, b);
      }
    } else {
      var u := Served(buckets, s, t);
    }
  }

  lemma Served(buckets: int, s: System, t: nat) returns (u: System)
    requires buckets > 0 && Inv(s) && t < |s.threads| && s.threads[t].Waiting? && !Leaked(s, s.threads[t].b)
    ensures Reaches(buckets, s, u) && IsInside(u, t, s.threads[t].b)
  {
    var b := s.threads[t].b;
    assert Run(buckets, s, []) == Some(s);
    if b in s.locked {
      var w :| IsInside(s, w, b);
      var r := Step(buckets, s, Leave(w));
      assert [Leave(w)][..0] == [];
      assert Run(buckets, s, [Leave(w)]) == Some(r);
      u := Step(buckets, r, Acquire(t));
      assert [Leave(w), Acquire(t)][..1] == [Leave(w)];
      assert Run(buckets, s, [Leave(w), Acquire(t)]) == Some(u);
    } else {
      u := Step(buckets, s, Acquire(t));
      assert [Acquire(t)][..0] == [];
      assert Run(buckets, s, [Acquire(t)]) == Some(u);
    }
  }
}
