/** One attempt of `update_process_failure` (hax/hax/handler.py) over the process statuses kept in the
    KV store (hax/hax/util.py), for every pattern of failing Consul calls. */
module FailureHandling {
  import opened Fids
  import opened FidKeys

  datatype Health = Failed | Ok | Offline | Stopped | Recovering | Repair | Repaired | Rebalance | Unknown

  datatype HAState = HAState(fid: Fid, status: Health)

  datatype ProcessState = Starting | Started | Stopping | HasStopped | DtmRecovered

  datatype ProcessType = Other | Kernel | M0mkfs | M0d | HaxProcess

  /** An entry `processes/<fid>` of the KV store. */
  datatype Status = Status(state: ProcessState, typ: ProcessType)

  type KV = map<Fid, Status>

  predicate IsProcess(f: Fid) {
    f.container == PROCESS
  }

  /** `get_base_fid` of a process. */
  function Base(f: Fid): Fid {
    Fid(f.container, f.key % TWO_32)
  }

  /** What Consul tells about the cluster apart from the statuses: none of it is written here. */
  datatype Cluster = Cluster(self: Fid, amIRc: bool, health: Fid -> Health, isLocal: Fid -> bool, nodeHealth: Fid -> Health)

  /** The Consul calls before the loop and those of one iteration, in order. */
  datatype Site = SelfFid | AmIRc | CurrentStatus | ProcessStatus | IsLocal | NodeHealth | UpdateStatus | Publish

  /** A call goes well, fails without effect, or fails after its effect. */
  datatype Fault = Fine | Before | After

  /** Faults of the calls made for the state at each position; the calls before the loop count as
      position 0. */
  type Faults = (nat, Site) -> Fault

  /** What handling one process state did: the new store, whether the state is reported, and whether
      a call raised. */
  datatype Verdict = Verdict(kv: KV, reported: Option<Health>, raised: bool)

  predicate Failing(h: Health) {
    h.Offline? || h.Failed?
  }

  /** The status is written under the fid itself, and read back under its base. */
  function Record(faults: Faults, i: nat, kv: KV, f: Fid, typ: ProcessType, h: Health): Verdict {
    var kv' := kv[f := Status(HasStopped, typ)];
    if faults(i, UpdateStatus).Before? then Verdict(kv, None, true)
    else if faults(i, UpdateStatus).After? then Verdict(kv', None, true)
    else Verdict(kv', Some(h), !faults(i, Publish).Fine?)
  }

  /** The locked part of an iteration over a process state. */
  function Handle(cl: Cluster, faults: Faults, i: nat, kv: KV, f: Fid): Verdict {
    var h := cl.health(f);
    if !faults(i, CurrentStatus).Fine? then Verdict(kv, None, true)
    else if !Failing(h) then Verdict(kv, None, false)
    else if !faults(i, ProcessStatus).Fine? then Verdict(kv, None, true)
    else if Base(f) !in kv || kv[Base(f)].typ.M0mkfs? then Verdict(kv, None, false)
    else if !faults(i, IsLocal).Fine? then Verdict(kv, None, true)
    else if cl.isLocal(f) then
      if kv[Base(f)].state != HasStopped then Record(faults, i, kv, f, kv[Base(f)].typ, h) else Verdict(kv, None, false)
    else if cl.amIRc then
      if !faults(i, NodeHealth).Fine? then Verdict(kv, None, true)
      else if cl.nodeHealth(f).Ok? then Verdict(kv, None, false)
      else if kv[Base(f)].state != HasStopped then Record(faults, i, kv, f, kv[Base(f)].typ, h)
      else Verdict(kv, None, false)
    else Verdict(kv, None, false)
  }

  /** Store and result list after the states so far, or an exception. */
  datatype Progress = Progress(kv: KV, out: seq<HAState>, raised: bool)

  /** The loop over the first `n` states, stopping at the first exception. */
  function Scan(cl: Cluster, faults: Faults, kv: KV, states: seq<HAState>, n: nat): Progress
    requires n <= |states|
  {
    if n == 0 then Progress(kv, [], false)
    else
      var p := Scan(cl, faults, kv, states, n - 1);
      var st := states[n - 1];
      if p.raised then p
      else if !IsProcess(st.fid) then p.(out := p.out + [st])
      else if st.fid == cl.self then p
      else
        var v := Handle(cl, faults, n - 1, p.kv, st.fid);
        Progress(v.kv, if v.reported.Some? then p.out + [HAState(st.fid, v.reported.value)] else p.out, v.raised)
  }

  function Attempt(cl: Cluster, faults: Faults, kv: KV, states: seq<HAState>): Progress {
    if !faults(0, SelfFid).Fine? || !faults(0, AmIRc).Fine? then Progress(kv, [], true)
    else Scan(cl, faults, kv, states, |states|)
  }

  // ---------------------------------------------------------------- other states pass through

  function Others(states: seq<HAState>): seq<HAState> {
    if states == [] then []
    else Others(states[..|states|-1]) + if IsProcess(states[|states|-1].fid) then [] else [states[|states|-1]]
  }

  lemma OthersPush(a: seq<HAState>, st: HAState)
    ensures Others(a + [st]) == Others(a) + if IsProcess(st.fid) then [] else [st]
  {
    assert (a + [st])[..|a|] == a;
  }

  lemma {:induction false} OthersScanned(cl: Cluster, faults: Faults, kv: KV, states: seq<HAState>, n: nat)
    requires n <= |states| && !Scan(cl, faults, kv, states, n).raised
    ensures Others(Scan(cl, faults, kv, states, n).out) == Others(states[..n])
  {
    if n > 0 {
      var p := Scan(cl, faults, kv, states, n - 1);
      OthersScanned(cl, faults, kv, states, n - 1);
      assert states[..n] == states[..n-1] + [states[n-1]];
      OthersPush(states[..n-1], states[n-1]);
      OthersPush(p.out, states[n-1]);
      var v := Handle(cl, faults, n - 1, p.kv, states[n-1].fid);
      if v.reported.Some? {
        OthersPush(p.out, HAState(states[n-1].fid, v.reported.value));
      }
    }
  }

  /** States of other objects come through unchanged and in order. */
  lemma OthersKept(cl: Cluster, faults: Faults, kv: KV, states: seq<HAState>)
    requires !Attempt(cl, faults, kv, states).raised
    ensures Others(Attempt(cl, faults, kv, states).out) == Others(states)
  {
    OthersScanned(cl, faults, kv, states, |states|);
    assert states[..|states|] == states;
  }

  // ---------------------------------------------------------------- a second attempt

  /** This process would be reported if its status were not yet recorded as stopped. */
  predicate Eligible(cl: Cluster, f: Fid) {
    && IsProcess(f) && f != cl.self && Failing(cl.health(f))
    && (cl.isLocal(f) || (cl.amIRc && !cl.nodeHealth(f).Ok?))
  }

  predicate Due(cl: Cluster, kv: KV, f: Fid) {
    Eligible(cl, f) && Base(f) in kv && !kv[Base(f)].typ.M0mkfs? && kv[Base(f)].state != HasStopped
  }

  lemma HandleReports(cl: Cluster, faults: Faults, i: nat, kv: KV, f: Fid)
    requires IsProcess(f) && f != cl.self
    ensures var v := Handle(cl, faults, i, kv, f);
            && (v.reported.Some? ==> Due(cl, kv, f) && v.kv == kv[f := Status(HasStopped, kv[Base(f)].typ)])
            && (v.kv != kv ==> Due(cl, kv, f) && v.kv == kv[f := Status(HasStopped, kv[Base(f)].typ)])
            && (!v.raised && Due(cl, kv, f) ==> v.reported.Some?)
            && (v.reported.Some? ==> v.reported == Some(cl.health(f)) && Failing(cl.health(f)))
  {
  }

  /** In every attempt, whatever calls fail, each process state in the list carries the current health of its
      process, and that is offline or failed. */
  lemma {:induction false} CarriesHealth(cl: Cluster, faults: Faults, kv: KV, states: seq<HAState>, n: nat)
    requires n <= |states|
    ensures forall k :: 0 <= k < |Scan(cl, faults, kv, states, n).out| && IsProcess(Scan(cl, faults, kv, states, n).out[k].fid) ==>
                          var st := Scan(cl, faults, kv, states, n).out[k];
                          st.status == cl.health(st.fid) && Failing(st.status)
  {
    if n > 0 {
      CarriesHealth(cl, faults, kv, states, n - 1);
      var p, f := Scan(cl, faults, kv, states, n - 1), states[n-1].fid;
      if IsProcess(f) && f != cl.self {
        HandleReports(cl, faults, n - 1, p.kv, f);
      }
    }
  }

  lemma ReportsCurrentHealth(cl: Cluster, faults: Faults, kv: KV, states: seq<HAState>, k: nat)
    requires k < |Attempt(cl, faults, kv, states).out| && IsProcess(Attempt(cl, faults, kv, states).out[k].fid)
    ensures var st := Attempt(cl, faults, kv, states).out[k]; st.status == cl.health(st.fid) && Failing(st.status)
  {
    CarriesHealth(cl, faults, kv, states, |states|);
  }

  /** The calls an iteration makes for a process, in order, when none of them fails. */
  function Calls(cl: Cluster, kv: KV, f: Fid): seq<Site> {
    if !Failing(cl.health(f)) then [CurrentStatus]
    else if Base(f) !in kv || kv[Base(f)].typ.M0mkfs? then [CurrentStatus, ProcessStatus]
    else
      [CurrentStatus, ProcessStatus, IsLocal] +
      (if !cl.isLocal(f) && cl.amIRc then [NodeHealth] else []) +
      (if Due(cl, kv, f) then [UpdateStatus, Publish] else [])
  }

  /** An iteration raises exactly when one of these calls fails. */
  lemma RaisesIff(cl: Cluster, faults: Faults, i: nat, kv: KV, f: Fid)
    requires IsProcess(f) && f != cl.self
    ensures Handle(cl, faults, i, kv, f).raised <==>
              exists k :: 0 <= k < |Calls(cl, kv, f)| && !faults(i, Calls(cl, kv, f)[k]).Fine?
  {
    var cs := Calls(cl, kv, f);
    assert cs[0] == CurrentStatus;
    if Failing(cl.health(f)) {
      assert cs[1] == ProcessStatus;
      if Base(f) in kv && !kv[Base(f)].typ.M0mkfs? {
        assert cs[2] == IsLocal;
        assert !cl.isLocal(f) && cl.amIRc ==> cs[3] == NodeHealth;
        assert Due(cl, kv, f) ==> cs[|cs|-2] == UpdateStatus && cs[|cs|-1] == Publish;
      }
    }
  }

  /** The store changes exactly when the status call is reached and does not fail before its effect, and
      then in the entry of the process alone. */
  lemma StoresIff(cl: Cluster, faults: Faults, i: nat, kv: KV, f: Fid)
    requires IsProcess(f) && f != cl.self
    ensures var reached := Due(cl, kv, f) && faults(i, CurrentStatus).Fine? && faults(i, ProcessStatus).Fine? &&
                           faults(i, IsLocal).Fine? && (cl.isLocal(f) || faults(i, NodeHealth).Fine?);
            Handle(cl, faults, i, kv, f).kv ==
            if reached && !faults(i, UpdateStatus).Before? then kv[f := Status(HasStopped, kv[Base(f)].typ)] else kv
  {
  }

  predicate IsBase(f: Fid) {
    0 <= f.key < TWO_32
  }

  /** The only change made to a status kept under a base fid is to stopped. */
  ghost predicate Later(kv: KV, kv': KV) {
    forall b :: IsBase(b) ==>
                  && (b in kv' <==> b in kv)
                  && (b in kv ==> kv'[b].typ == kv[b].typ &&
                                  (kv'[b].state == kv[b].state || kv'[b].state == HasStopped))
  }

  lemma LaterNotDue(cl: Cluster, kv: KV, kv': KV, f: Fid)
    requires Later(kv, kv') && Due(cl, kv', f)
    ensures Due(cl, kv, f)
  {
    assert IsBase(Base(f));
  }

  lemma HandleLater(cl: Cluster, faults: Faults, i: nat, kv: KV, f: Fid)
    requires IsProcess(f) && f != cl.self
    ensures Later(kv, Handle(cl, faults, i, kv, f).kv)
  {
    HandleReports(cl, faults, i, kv, f);
    forall b | IsBase(b) && b == f
      ensures Base(f) == b
    {
    }
  }

  lemma TurnLater(cl: Cluster, faults: Faults, kv: KV, states: seq<HAState>, n: nat)
    requires n < |states|
    ensures Later(Scan(cl, faults, kv, states, n).kv, Scan(cl, faults, kv, states, n + 1).kv)
  {
    var st, p := states[n], Scan(cl, faults, kv, states, n);
    if !p.raised && IsProcess(st.fid) && st.fid != cl.self {
      HandleLater(cl, faults, n, p.kv, st.fid);
    }
  }

  lemma LaterStill(a: KV, b: KV, c: KV)
    requires Later(a, b) && Later(b, c)
    ensures Later(a, c)
  {
  }

  /** From the store before state `i` to the store before state `n`. */
  lemma {:induction false} ScanLater(cl: Cluster, faults: Faults, kv: KV, states: seq<HAState>, i: nat, n: nat)
    requires i <= n <= |states|
    ensures Later(Scan(cl, faults, kv, states, i).kv, Scan(cl, faults, kv, states, n).kv)
    decreases n
  {
    if i < n {
      ScanLater(cl, faults, kv, states, i, n - 1);
      TurnLater(cl, faults, kv, states, n - 1);
      LaterStill(Scan(cl, faults, kv, states, i).kv, Scan(cl, faults, kv, states, n - 1).kv, Scan(cl, faults, kv, states, n).kv);
    }
  }

  lemma {:induction false} NoRaiseBefore(cl: Cluster, faults: Faults, kv: KV, states: seq<HAState>, i: nat, n: nat)
    requires i <= n <= |states| && !Scan(cl, faults, kv, states, n).raised
    ensures !Scan(cl, faults, kv, states, i).raised
    ensures Scan(cl, faults, kv, states, i).out <= Scan(cl, faults, kv, states, n).out
    decreases n
  {
    if i < n {
      NoRaiseBefore(cl, faults, kv, states, i, n - 1);
    }
  }

  lemma SettledAtTurn(cl: Cluster, faults: Faults, kv: KV, states: seq<HAState>, i: nat)
    requires i < |states| && IsBase(states[i].fid) && !Scan(cl, faults, kv, states, i + 1).raised
    ensures !Due(cl, Scan(cl, faults, kv, states, i + 1).kv, states[i].fid)
  {
    var f, p := states[i].fid, Scan(cl, faults, kv, states, i);
    if Eligible(cl, f) {
      HandleReports(cl, faults, i, p.kv, f);
      assert Base(f) == f;
    }
  }

  /** Once a process listed under its base fid has had its turn, it is not due any more. */
  lemma SettledAfter(cl: Cluster, faults: Faults, kv: KV, states: seq<HAState>, i: nat, n: nat)
    requires i < n <= |states| && IsBase(states[i].fid) && !Scan(cl, faults, kv, states, n).raised
    ensures !Due(cl, Scan(cl, faults, kv, states, n).kv, states[i].fid)
  {
    NoRaiseBefore(cl, faults, kv, states, i + 1, n);
    SettledAtTurn(cl, faults, kv, states, i);
    ScanLater(cl, faults, kv, states, i + 1, n);
    if Due(cl, Scan(cl, faults, kv, states, n).kv, states[i].fid) {
      LaterNotDue(cl, Scan(cl, faults, kv, states, i + 1).kv, Scan(cl, faults, kv, states, n).kv, states[i].fid);
    }
  }

  ghost predicate NoProcess(out: seq<HAState>) {
    forall k :: 0 <= k < |out| ==> !IsProcess(out[k].fid)
  }

  lemma {:induction false} QuietScan(cl: Cluster, faults: Faults, kv: KV, states: seq<HAState>, n: nat)
    requires n <= |states| && forall i :: 0 <= i < n ==> !Due(cl, kv, states[i].fid)
    ensures NoProcess(Scan(cl, faults, kv, states, n).out)
  {
    if n > 0 {
      QuietScan(cl, faults, kv, states, n - 1);
      var st, p := states[n-1], Scan(cl, faults, kv, states, n - 1);
      if !p.raised && IsProcess(st.fid) && st.fid != cl.self {
        HandleReports(cl, faults, n - 1, p.kv, st.fid);
        ScanLater(cl, faults, kv, states, 0, n - 1);
        if Due(cl, p.kv, st.fid) {
          LaterNotDue(cl, kv, p.kv, st.fid);
        }
      }
    }
  }

  /** After an attempt that went through, another attempt on the same states, with no other writer and
      whatever calls fail, reports no process listed under its base fid. */
  lemma SecondAttemptQuiet(cl: Cluster, faults: Faults, faults': Faults, kv: KV, states: seq<HAState>)
    requires forall i :: 0 <= i < |states| && IsProcess(states[i].fid) ==> IsBase(states[i].fid)
    requires !Attempt(cl, faults, kv, states).raised
    ensures NoProcess(Attempt(cl, faults', Attempt(cl, faults, kv, states).kv, states).out)
  {
    var kv1 := Attempt(cl, faults, kv, states).kv;
    forall i | 0 <= i < |states|
      ensures !Due(cl, kv1, states[i].fid)
    {
      if IsProcess(states[i].fid) {
        SettledAfter(cl, faults, kv, states, i, |states|);
      }
    }
    QuietScan(cl, faults', kv1, states, |states|);
  }

  /** None of the first `n` states is the base of `f`, due. */
  ghost predicate BaseNotDue(cl: Cluster, kv: KV, states: seq<HAState>, f: Fid, n: nat)
    requires n <= |states|
  {
    forall k :: 0 <= k < n ==> !(states[k].fid == Base(f) && Due(cl, kv, Base(f)))
  }

  /** The status read for a process is written only when its base is listed and due. */
  lemma {:induction false} BaseEntryKept(cl: Cluster, faults: Faults, kv: KV, states: seq<HAState>, f: Fid, n: nat)
    requires n <= |states| && IsProcess(f) && BaseNotDue(cl, kv, states, f, n)
    ensures Due(cl, Scan(cl, faults, kv, states, n).kv, f) == Due(cl, kv, f)
  {
    if n > 0 {
      BaseEntryKept(cl, faults, kv, states, f, n - 1);
      var st, p := states[n-1], Scan(cl, faults, kv, states, n - 1);
      if !p.raised && IsProcess(st.fid) && st.fid != cl.self {
        HandleReports(cl, faults, n - 1, p.kv, st.fid);
        ScanLater(cl, faults, kv, states, 0, n - 1);
        if st.fid == Base(f) && Due(cl, p.kv, st.fid) {
          LaterNotDue(cl, kv, p.kv, st.fid);
        }
      }
    }
  }

  /** Once its base has had its turn while due, a process is not due. */
  lemma BaseEntryStopped(cl: Cluster, faults: Faults, kv: KV, states: seq<HAState>, f: Fid, k: nat, n: nat)
    requires k < n <= |states| && !Scan(cl, faults, kv, states, n).raised
    requires states[k].fid == Base(f) && Due(cl, kv, Base(f))
    ensures !Due(cl, Scan(cl, faults, kv, states, n).kv, f)
  {
    assert IsBase(Base(f)) && Base(Base(f)) == Base(f);
    SettledAfter(cl, faults, kv, states, k, n);
    ScanLater(cl, faults, kv, states, 0, n);
  }

  predicate Reports(out: seq<HAState>, f: Fid) {
    exists k :: 0 <= k < |out| && out[k].fid == f
  }

  lemma DueIsAppended(cl: Cluster, faults: Faults, kv: KV, states: seq<HAState>, i: nat)
    requires i < |states| && !Scan(cl, faults, kv, states, i + 1).raised
    requires Due(cl, Scan(cl, faults, kv, states, i).kv, states[i].fid)
    ensures Reports(Scan(cl, faults, kv, states, i + 1).out, states[i].fid)
  {
    var p, q := Scan(cl, faults, kv, states, i), Scan(cl, faults, kv, states, i + 1);
    assert !p.raised;
    HandleReports(cl, faults, i, p.kv, states[i].fid);
    assert q.out[|p.out|].fid == states[i].fid;
  }

  /** A process due when its turn comes is in the result. */
  lemma DueIsReported(cl: Cluster, faults: Faults, kv: KV, states: seq<HAState>, i: nat)
    requires i < |states| && !Scan(cl, faults, kv, states, |states|).raised
    requires Due(cl, Scan(cl, faults, kv, states, i).kv, states[i].fid)
    ensures Reports(Scan(cl, faults, kv, states, |states|).out, states[i].fid)
  {
    var q := Scan(cl, faults, kv, states, i + 1);
    NoRaiseBefore(cl, faults, kv, states, i + 1, |states|);
    DueIsAppended(cl, faults, kv, states, i);
    var k :| 0 <= k < |q.out| && q.out[k].fid == states[i].fid;
    assert Scan(cl, faults, kv, states, |states|).out[k] == q.out[k];
  }

  /** Everything reported for a process was due when its turn came. */
  lemma {:induction false} ReportedWasDue(cl: Cluster, faults: Faults, kv: KV, states: seq<HAState>, n: nat, k: nat)
    returns (i: nat)
    requires n <= |states| && k < |Scan(cl, faults, kv, states, n).out|
    requires IsProcess(Scan(cl, faults, kv, states, n).out[k].fid)
    ensures i < n && states[i].fid == Scan(cl, faults, kv, states, n).out[k].fid
    ensures Due(cl, Scan(cl, faults, kv, states, i).kv, states[i].fid)
    decreases n
  {
    var p := Scan(cl, faults, kv, states, n - 1);
    if k < |p.out| {
      i := ReportedWasDue(cl, faults, kv, states, n - 1, k);
    } else {
      i := n - 1;
      HandleReports(cl, faults, n - 1, p.kv, states[i].fid);
    }
  }

  /** Due under a dynamic fid, with no due base in the list that would stop it. */
  ghost predicate StaysDue(cl: Cluster, kv: KV, states: seq<HAState>, f: Fid) {
    Due(cl, kv, f) && !IsBase(f) && BaseNotDue(cl, kv, states, f, |states|)
  }

  lemma DueAfterAttempt(cl: Cluster, faults: Faults, kv: KV, states: seq<HAState>, i: nat)
    requires i < |states| && !Scan(cl, faults, kv, states, |states|).raised
    ensures Due(cl, Scan(cl, faults, kv, states, |states|).kv, states[i].fid) <==> StaysDue(cl, kv, states, states[i].fid)
  {
    var f := states[i].fid;
    var kv1 := Scan(cl, faults, kv, states, |states|).kv;
    if IsBase(f) {
      SettledAfter(cl, faults, kv, states, i, |states|);
    } else if IsProcess(f) {
      if BaseNotDue(cl, kv, states, f, |states|) {
        BaseEntryKept(cl, faults, kv, states, f, |states|);
      } else {
        var k :| 0 <= k < |states| && states[k].fid == Base(f) && Due(cl, kv, Base(f));
        BaseEntryStopped(cl, faults, kv, states, f, k, |states|);
      }
    }
  }

  lemma SecondReports(cl: Cluster, faults: Faults, faults': Faults, kv: KV, states: seq<HAState>, i: nat)
    requires i < |states| && StaysDue(cl, kv, states, states[i].fid) && !Attempt(cl, faults, kv, states).raised
    requires !Attempt(cl, faults', Attempt(cl, faults, kv, states).kv, states).raised
    ensures !NoProcess(Attempt(cl, faults', Attempt(cl, faults, kv, states).kv, states).out)
  {
    var f, kv1 := states[i].fid, Attempt(cl, faults, kv, states).kv;
    DueAfterAttempt(cl, faults, kv, states, i);
    ScanLater(cl, faults, kv, states, 0, |states|);
    if Due(cl, kv1, Base(f)) {
      LaterNotDue(cl, kv, kv1, Base(f));
    }
    BaseEntryKept(cl, faults', kv1, states, f, i);
    DueIsReported(cl, faults', kv1, states, i);
  }

  /** When neither of two attempts on the same states raises, and nobody else writes, the second reports a
      process exactly when the list has a process that is due under a dynamic fid and whose base is not
      itself due in the list: the status is written under the fid and read under its base. */
  lemma SecondAttemptIff(cl: Cluster, faults: Faults, faults': Faults, kv: KV, states: seq<HAState>)
    requires !Attempt(cl, faults, kv, states).raised
    requires !Attempt(cl, faults', Attempt(cl, faults, kv, states).kv, states).raised
    ensures NoProcess(Attempt(cl, faults', Attempt(cl, faults, kv, states).kv, states).out)
       <==> forall i :: 0 <= i < |states| ==> !StaysDue(cl, kv, states, states[i].fid)
  {
    var kv1 := Attempt(cl, faults, kv, states).kv;
    if i :| 0 <= i < |states| && StaysDue(cl, kv, states, states[i].fid) {
      SecondReports(cl, faults, faults', kv, states, i);
    } else {
      forall i | 0 <= i < |states|
        ensures !Due(cl, kv1, states[i].fid)
      {
        DueAfterAttempt(cl, faults, kv, states, i);
      }
      QuietScan(cl, faults', kv1, states, |states|);
    }
  }

  // ---------------------------------------------------------------- repeat_if_fails

  /** The store after a sequence of attempts. */
  function StoreAfter(cl: Cluster, tries: seq<Faults>, kv: KV, states: seq<HAState>): KV {
    if tries == [] then kv
    else Attempt(cl, tries[|tries|-1], StoreAfter(cl, tries[..|tries|-1], kv, states), states).kv
  }

  lemma {:induction false} TriesLater(cl: Cluster, tries: seq<Faults>, kv: KV, states: seq<HAState>)
    ensures Later(kv, StoreAfter(cl, tries, kv, states))
  {
    if tries != [] {
      var kv1 := StoreAfter(cl, tries[..|tries|-1], kv, states);
      TriesLater(cl, tries[..|tries|-1], kv, states);
      ScanLater(cl, tries[|tries|-1], kv1, states, 0, |states|);
    }
  }

  lemma FirstPosition(states: seq<HAState>, i: nat) returns (j: nat)
    requires i < |states|
    ensures j <= i && states[j].fid == states[i].fid
    ensures forall k :: 0 <= k < j ==> states[k].fid != states[i].fid
  {
    j := 0;
    while states[j].fid != states[i].fid
      invariant j <= i
      invariant forall k :: 0 <= k < j ==> states[k].fid != states[i].fid
      decreases i - j
    {
      j := j + 1;
    }
  }

  /** No due base of `f` is listed before `f`; so it is when `f` is its own base. */
  ghost predicate InTime(cl: Cluster, kv: KV, states: seq<HAState>, f: Fid) {
    forall k :: 0 <= k < |states| && states[k].fid == Base(f) && Due(cl, kv, Base(f)) ==>
                  exists j :: 0 <= j <= k && states[j].fid == f
  }

  lemma ReportedWhenDue(cl: Cluster, faults: Faults, kv: KV, states: seq<HAState>, i: nat)
    requires i < |states| && !Attempt(cl, faults, kv, states).raised
    requires Due(cl, kv, states[i].fid) && InTime(cl, kv, states, states[i].fid)
    ensures Reports(Attempt(cl, faults, kv, states).out, states[i].fid)
  {
    var f := states[i].fid;
    var j := FirstPosition(states, i);
    forall k | 0 <= k < j
      ensures !(states[k].fid == Base(f) && Due(cl, kv, Base(f)))
    {
      assert forall r :: 0 <= r <= k ==> states[r].fid != f;
    }
    BaseEntryKept(cl, faults, kv, states, f, j);
    DueIsReported(cl, faults, kv, states, j);
  }

  lemma DueWhenReported(cl: Cluster, faults: Faults, kv: KV, states: seq<HAState>, f: Fid)
    requires IsProcess(f) && !Attempt(cl, faults, kv, states).raised && Reports(Attempt(cl, faults, kv, states).out, f)
    ensures Due(cl, kv, f) && InTime(cl, kv, states, f)
  {
    var out := Attempt(cl, faults, kv, states).out;
    var r :| 0 <= r < |out| && out[r].fid == f;
    var j := ReportedWasDue(cl, faults, kv, states, |states|, r);
    ScanLater(cl, faults, kv, states, 0, j);
    LaterNotDue(cl, kv, Scan(cl, faults, kv, states, j).kv, f);
    forall k | 0 <= k < |states| && states[k].fid == Base(f) && Due(cl, kv, Base(f))
      ensures exists j :: 0 <= j <= k && states[j].fid == f
    {
      if k < j {
        NoRaiseBefore(cl, faults, kv, states, j, |states|);
        BaseEntryStopped(cl, faults, kv, states, f, k, j);
      }
      assert states[j].fid == f;
    }
  }

  /** An attempt that goes through reports a listed process exactly when it is due in the store the attempt
      starts from and no due base of it comes first. */
  lemma ReportedIffDue(cl: Cluster, faults: Faults, kv: KV, states: seq<HAState>, i: nat)
    requires i < |states| && IsProcess(states[i].fid) && !Attempt(cl, faults, kv, states).raised
    ensures Reports(Attempt(cl, faults, kv, states).out, states[i].fid) <==>
              Due(cl, kv, states[i].fid) && InTime(cl, kv, states, states[i].fid)
  {
    if Reports(Attempt(cl, faults, kv, states).out, states[i].fid) {
      DueWhenReported(cl, faults, kv, states, states[i].fid);
    }
    if Due(cl, kv, states[i].fid) && InTime(cl, kv, states, states[i].fid) {
      ReportedWhenDue(cl, faults, kv, states, i);
    }
  }

  /** The call is repeated until an attempt goes through, and only that attempt's list is returned: a
      process due at the first attempt is in it exactly when no failed attempt has changed the status read
      for it, and no due base of it comes first. */
  lemma RetriedReportIff(cl: Cluster, failed: seq<Faults>, last: Faults, kv: KV, states: seq<HAState>, i: nat)
    requires i < |states| && Due(cl, kv, states[i].fid)
    requires !Attempt(cl, last, StoreAfter(cl, failed, kv, states), states).raised
    ensures Base(states[i].fid) in StoreAfter(cl, failed, kv, states)
    ensures Reports(Attempt(cl, last, StoreAfter(cl, failed, kv, states), states).out, states[i].fid) <==>
              && StoreAfter(cl, failed, kv, states)[Base(states[i].fid)] == kv[Base(states[i].fid)]
              && InTime(cl, kv, states, states[i].fid)
  {
    TriesLater(cl, failed, kv, states);
    var b := Base(states[i].fid);
    assert IsBase(b) && Base(b) == b;
    ReportedIffDue(cl, last, StoreAfter(cl, failed, kv, states), states, i);
  }

  /** The broadcast queue cannot be written to after the status of a process has been. */
  const NO_PUBLISH: Faults := (i, s) => if s == Publish then Before else Fine

  /** Such a failure is recorded as stopped and, whatever calls fail in the retry, never reported. */
  lemma RetryLosesReport(cl: Cluster, faults: Faults, kv: KV, f: Fid, h: Health)
    requires IsBase(f) && Due(cl, kv, f)
    ensures Attempt(cl, NO_PUBLISH, kv, [HAState(f, h)]).raised
    ensures Attempt(cl, faults, StoreAfter(cl, [NO_PUBLISH], kv, [HAState(f, h)]), [HAState(f, h)]).out == []
  {
    var states := [HAState(f, h)];
    var kv1 := StoreAfter(cl, [NO_PUBLISH], kv, states);
    assert Scan(cl, NO_PUBLISH, kv, states, 0) == Progress(kv, [], false);
    assert [NO_PUBLISH][..0] == [];
    assert StoreAfter(cl, [], kv, states) == kv;
    assert kv1 == Attempt(cl, NO_PUBLISH, kv, states).kv;
    assert Base(f) == f;
    assert kv1 == kv[f := Status(HasStopped, kv[f].typ)];
    assert Scan(cl, faults, kv1, states, 0) == Progress(kv1, [], false);
  }
}
