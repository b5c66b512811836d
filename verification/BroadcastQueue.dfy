/** The broadcast queue end to end: any number of publishers racing on the epoch key
    (hax/hax/queue/publish.py), and one consumer that handles watch snapshots one at a time, marks
    what it has processed (hax/hax/server.py) and may crash anywhere. */
module BroadcastQueue {
  import opened Fids
  import opened Inbox

  /** The keys of the KV store that matter: the epoch with its modify index, the queue entries, the
      consumer's offset.  `clock` is the store's own index. */
  datatype Store = Store(epoch: int, index: nat, clock: nat, queue: map<int, string>, offset: Option<int>)

  /** A publish call: by which publisher, with which message, and how many calls had returned when it began. */
  datatype Publishing = Publishing(pub: nat, msg: string, before: nat)

  /** A publisher: not in a call, about to read the epoch, about to put the transaction, or told that it was
      committed and about to return.  `id` numbers the call. */
  datatype Publisher =
    | Idle
    | Wants(msg: string, id: nat)
    | HasRead(index: nat, value: int, msg: string, id: nat)
    | Done(epoch: int, id: nat)

  /** A call that has returned. */
  datatype Reply = Reply(id: nat, epoch: int)

  /** The consumer: resting, or going through prepared entries; `inFlight` when the first of them is
      processed and not yet marked. */
  datatype Consumer = Rest | Handling(todo: seq<Entry>, inFlight: bool)

  /** `log` and `authors` record each commit and its call, `acked` and `lost` the calls whose commits were
      answered or not, `returned` what publish calls returned, `delivered` what the processor was given. */
  datatype System = System(
    kv: Store, pubs: seq<Publisher>, con: Consumer,
    calls: seq<Publishing>, log: seq<Entry>, authors: seq<nat>, acked: seq<nat>, lost: seq<nat>, returned: seq<Reply>,
    delivered: seq<Entry>, crashes: nat)

  datatype Label =
    | Call(i: nat, msg: string) | Read(i: nat) | Put(i: nat, answered: bool) | Return(i: nat) | Fail(i: nat) | OtherWrite
    | Snapshot(k: nat, raw: seq<Entry>) | Process | Mark | Crash

  predicate Enabled(s: System, l: Label) {
    match l
    case Call(i, _) => i < |s.pubs| && s.pubs[i].Idle?
    case Read(i) => i < |s.pubs| && s.pubs[i].Wants?
    case Put(i, _) => i < |s.pubs| && s.pubs[i].HasRead?
    case Return(i) => i < |s.pubs| && s.pubs[i].Done?
    case Fail(i) => i < |s.pubs| && (s.pubs[i].Wants? || s.pubs[i].HasRead?)
    case OtherWrite => true
    case Snapshot(k, raw) => s.con.Rest? && k <= |s.log| && multiset(raw) == multiset(s.log[..k])
    case Process => s.con.Handling? && s.con.todo != [] && !s.con.inFlight
    case Mark => s.con.Handling? && s.con.todo != [] && s.con.inFlight
    case Crash => true
  }

  /** `to_payload`: an index of zero is no check at all. */
  predicate Accepts(kv: Store, index: nat) {
    index == 0 || index == kv.index
  }

  /** The transaction puts the next epoch and the message under it. */
  function Committed(kv: Store, value: int, msg: string): Store {
    kv.(epoch := value + 1, index := kv.clock + 1, clock := kv.clock + 1, queue := kv.queue[value + 1 := msg])
  }

  /** `kv_put_in_transaction` and what follows it.  A commit whose answer is lost makes the retry
      decorator start the whole call again. */
  function StepPut(s: System, i: nat, answered: bool): System
    requires i < |s.pubs| && s.pubs[i].HasRead?
  {
    var p := s.pubs[i];
    if Accepts(s.kv, p.index) then
      s.(kv := Committed(s.kv, p.value, p.msg),
         pubs := s.pubs[i := if answered then Done(p.value + 1, p.id) else Wants(p.msg, p.id)],
         log := s.log + [Entry(p.value + 1, p.msg)], authors := s.authors + [p.id],
         acked := if answered then s.acked + [p.id] else s.acked,
         lost := if answered then s.lost else s.lost + [p.id])
    else
      s.(pubs := s.pubs[i := Wants(p.msg, p.id)])
  }

  /** `get_last_read_epoch`. */
  function LastRead(kv: Store): int {
    match kv.offset case None => -1 case Some(e) => e
  }

  function Step(s: System, l: Label): System
    requires Enabled(s, l)
  {
    match l
    case Call(i, msg) =>
      s.(pubs := s.pubs[i := Wants(msg, |s.calls|)], calls := s.calls + [Publishing(i, msg, |s.returned|)])
    case Read(i) => s.(pubs := s.pubs[i := HasRead(s.kv.index, s.kv.epoch, s.pubs[i].msg, s.pubs[i].id)])
    case Put(i, answered) => StepPut(s, i, answered)
    case Return(i) =>
      s.(pubs := s.pubs[i := Idle], returned := s.returned + [Reply(s.pubs[i].id, s.pubs[i].epoch)])
    case Fail(i) => s.(pubs := s.pubs[i := Wants(s.pubs[i].msg, s.pubs[i].id)])
    case OtherWrite => s.(kv := s.kv.(clock := s.kv.clock + 1))
    case Snapshot(k, raw) =>
      var todo := Prepare(raw, LastRead(s.kv));
      s.(con := if todo == [] then Rest else Handling(todo, false))
    case Process =>
      s.(delivered := s.delivered + [s.con.todo[0]], con := s.con.(inFlight := true))
    case Mark =>
      s.(kv := s.kv.(offset := Some(s.con.todo[0].epoch)),
         con := if |s.con.todo| == 1 then Rest else Handling(s.con.todo[1..], false))
    case Crash => s.(con := Rest, crashes := s.crashes + 1)
  }

  /** An empty queue at epoch `e0`, whose key has modify index `index`. */
  function Start(e0: nat, index: nat, clock: nat, n: nat): System {
    System(Store(e0, index, clock, map[], None), seq(n, _ => Idle), Rest, [], [], [], [], [], [], [], 0)
  }

  function Run(s: System, ls: seq<Label>): Option<System> {
    if ls == [] then Some(s)
    else
      match Run(s, ls[..|ls|-1])
      case None => None
      case Some(t) => if Enabled(t, ls[|ls|-1]) then Some(Step(t, ls[|ls|-1])) else None
  }

  // ---------------------------------------------------------------- publishers

  function QueueOf(log: seq<Entry>): map<int, string> {
    if log == [] then map[] else QueueOf(log[..|log|-1])[log[|log|-1].epoch := log[|log|-1].msg]
  }

  /** An index that is checked, or a publisher that is alone. */
  predicate Checked(index: nat, n: nat) {
    index > 0 || n < 2
  }

  /** The index guards the epoch: whoever gets a transaction through read the current epoch. */
  ghost predicate Guarded(s: System) {
    && s.kv.index <= s.kv.clock && Checked(s.kv.index, |s.pubs|)
    && forall i :: 0 <= i < |s.pubs| && s.pubs[i].HasRead? ==>
                     && s.pubs[i].index <= s.kv.index && Checked(s.pubs[i].index, |s.pubs|)
                     && (Accepts(s.kv, s.pubs[i].index) ==> s.pubs[i].value == s.kv.epoch)
  }

  ghost predicate PublishInv(s: System, e0: int) {
    && Guarded(s)
    && Consecutive(s.log, e0 + 1) && s.kv.epoch == e0 + |s.log|
    && |s.authors| == |s.log| && s.kv.queue == QueueOf(s.log)
  }

  /** Call `c` is under way. */
  predicate UnderWay(s: System, c: nat) {
    && c < |s.calls| && s.calls[c].pub < |s.pubs|
    && !s.pubs[s.calls[c].pub].Idle? && s.pubs[s.calls[c].pub].id == c
  }

  ghost predicate HasReturned(s: System, c: nat) {
    exists j :: 0 <= j < |s.returned| && s.returned[j].id == c
  }

  /** Publishers carry on their own calls with their own messages, and no call is given up. */
  ghost predicate CallInv(s: System) {
    && (forall i :: 0 <= i < |s.pubs| && !s.pubs[i].Idle? ==> s.pubs[i].id < |s.calls| && s.calls[s.pubs[i].id].pub == i)
    && (forall i :: 0 <= i < |s.pubs| && (s.pubs[i].Wants? || s.pubs[i].HasRead?) ==>
                      s.pubs[i].id < |s.calls| && s.pubs[i].msg == s.calls[s.pubs[i].id].msg)
    && (forall c :: 0 <= c < |s.calls| ==> UnderWay(s, c) || HasReturned(s, c))
  }

  /** Epoch `e` is that of a commit of call `c`. */
  predicate OwnCommit(s: System, e0: int, c: nat, e: int) {
    0 <= e - e0 - 1 < |s.authors| && s.authors[e - e0 - 1] == c
  }

  /** Every entry holds the message of the call that committed it, and each call returns, or is about to
      return, the epoch of a commit of its own. */
  predicate ReplyInv(s: System, e0: int) {
    && |s.authors| == |s.log| && s.kv.epoch == e0 + |s.log|
    && (forall k :: 0 <= k < |s.log| ==> s.authors[k] < |s.calls| && s.log[k].msg == s.calls[s.authors[k]].msg)
    && (forall j :: 0 <= j < |s.returned| ==> OwnCommit(s, e0, s.returned[j].id, s.returned[j].epoch))
    && (forall i :: 0 <= i < |s.pubs| && s.pubs[i].Done? ==> OwnCommit(s, e0, s.pubs[i].id, s.pubs[i].epoch))
  }

  function Before(s: System, c: nat): nat {
    if c < |s.calls| then s.calls[c].before else 0
  }

  /** A call that returned before another began has the smaller epoch. */
  predicate OrderInv(s: System) {
    && (forall c :: 0 <= c < |s.calls| ==> s.calls[c].before <= |s.returned|)
    && (forall i :: 0 <= i < |s.pubs| && !s.pubs[i].Idle? ==> s.pubs[i].id < |s.calls|)
    && (forall j :: 0 <= j < |s.returned| ==> s.returned[j].epoch <= s.kv.epoch && s.returned[j].id < |s.calls|)
    && (forall j, k :: 0 <= k < |s.returned| && 0 <= j < |s.returned| && j < Before(s, s.returned[k].id) ==>
                         s.returned[j].epoch < s.returned[k].epoch)
    && (forall i, j :: 0 <= i < |s.pubs| && s.pubs[i].Done? && 0 <= j < |s.returned| && j < Before(s, s.pubs[i].id) ==>
                         s.returned[j].epoch < s.pubs[i].epoch)
    && (forall i :: 0 <= i < |s.pubs| && s.pubs[i].Done? ==> s.pubs[i].epoch <= s.kv.epoch)
  }

  /** No commit is returned twice. */
  predicate OnceInv(s: System) {
    && (forall j, k :: 0 <= j < k < |s.returned| ==> s.returned[j].epoch != s.returned[k].epoch)
    && (forall i, j :: 0 <= i < |s.pubs| && s.pubs[i].Done? && 0 <= j < |s.returned| ==>
                         s.returned[j].epoch != s.pubs[i].epoch)
    && (forall i, k :: 0 <= i < k < |s.pubs| && s.pubs[i].Done? && s.pubs[k].Done? ==> s.pubs[i].epoch != s.pubs[k].epoch)
  }

  /** A call commits once for each answer that was lost and once more when it is answered, which happens just
      once, and it returns only after that. */
  ghost predicate AckInv(s: System) {
    && multiset(s.authors) == multiset(s.acked) + multiset(s.lost)
    && (forall c :: multiset(s.acked)[c] <= 1)
    && (forall c :: c in s.acked ==> c < |s.calls|)
    && (forall i :: 0 <= i < |s.pubs| && (s.pubs[i].Wants? || s.pubs[i].HasRead?) ==> s.pubs[i].id !in s.acked)
    && (forall i :: 0 <= i < |s.pubs| && s.pubs[i].Done? ==> s.pubs[i].id in s.acked)
    && (forall j :: 0 <= j < |s.returned| ==> s.returned[j].id in s.acked)
  }

  ghost predicate ReturnInv(s: System, e0: int) {
    CallInv(s) && ReplyInv(s, e0) && OrderInv(s) && OnceInv(s) && AckInv(s)
  }

  lemma {:induction false} QueueKeys(log: seq<Entry>, first: int)
    requires Consecutive(log, first)
    ensures forall k :: k in QueueOf(log) <==> first <= k < first + |log|
    ensures forall i :: 0 <= i < |log| ==> log[i].epoch in QueueOf(log) && QueueOf(log)[log[i].epoch] == log[i].msg
  {
    if log != [] {
      QueueKeys(log[..|log|-1], first);
    }
  }

  lemma {:induction false} PublishStep(s: System, l: Label, e0: int)
    requires PublishInv(s, e0) && Enabled(s, l)
    ensures PublishInv(Step(s, l), e0)
    ensures l.Put? && Step(s, l).log != s.log ==>
              var e := s.pubs[l.i].value + 1; e == e0 + 1 + |s.log| && e !in s.kv.queue
  {
    var t := Step(s, l);
    QueueKeys(s.log, e0 + 1);
    if l.Put? && Accepts(s.kv, s.pubs[l.i].index) {
      assert t.log[..|t.log|-1] == s.log;
    }
  }

  /** A commit takes an epoch above all others. */
  lemma CommitIsNew(s: System, i: nat, e0: int)
    requires PublishInv(s, e0) && i < |s.pubs| && s.pubs[i].HasRead? && Accepts(s.kv, s.pubs[i].index)
    ensures s.pubs[i].value == s.kv.epoch == e0 + |s.log|
  {
  }

  lemma ReturnedStays(s: System, t: System, c: nat)
    requires HasReturned(s, c) && s.returned <= t.returned
    ensures HasReturned(t, c)
  {
    var j :| 0 <= j < |s.returned| && s.returned[j].id == c;
    assert t.returned[j].id == c;
  }

  lemma {:induction false} CallStep(s: System, l: Label)
    requires CallInv(s) && Enabled(s, l)
    ensures CallInv(Step(s, l))
  {
    var t := Step(s, l);
    forall c | 0 <= c < |t.calls|
      ensures UnderWay(t, c) || HasReturned(t, c)
    {
      if c < |s.calls| {
        if HasReturned(s, c) {
          ReturnedStays(s, t, c);
        } else {
          assert UnderWay(s, c);
          if l.Return? && s.pubs[l.i].id == c {
            assert t.returned[|s.returned|].id == c;
          }
        }
      }
    }
  }

  /** Publisher `i` goes on with its call, uncommitted. */
  predicate GoesOn(s: System, t: System, i: nat) {
    && i < |s.pubs| && (s.pubs[i].Wants? || s.pubs[i].HasRead?)
    && |t.pubs| == |s.pubs| && (t.pubs[i].Wants? || t.pubs[i].HasRead?) && t.pubs[i].id == s.pubs[i].id
    && (forall k :: 0 <= k < |s.pubs| && k != i ==> t.pubs[k] == s.pubs[k])
    && SameHistory(s, t)
  }

  predicate SameHistory(s: System, t: System) {
    && t.calls == s.calls && t.log == s.log && t.authors == s.authors && t.acked == s.acked && t.lost == s.lost
    && t.returned == s.returned && t.kv.epoch == s.kv.epoch
  }

  /** The steps that are not calls, commits or returns. */
  lemma OtherSteps(s: System, l: Label)
    requires Enabled(s, l) && !l.Call? && !l.Return? && (l.Put? ==> !Accepts(s.kv, s.pubs[l.i].index))
    ensures var t := Step(s, l);
            (exists i :: GoesOn(s, t, i)) || (SameHistory(s, t) && t.pubs == s.pubs)
  {
    var t := Step(s, l);
    if l.Read? || l.Fail? || l.Put? {
      assert GoesOn(s, t, l.i);
    }
  }

  lemma OwnStays(s: System, t: System, e0: int, c: nat, e: int)
    requires OwnCommit(s, e0, c, e) && s.authors <= t.authors
    ensures OwnCommit(t, e0, c, e)
  {
  }

  lemma ReplyPut(s: System, i: nat, answered: bool, e0: int)
    requires PublishInv(s, e0) && CallInv(s) && ReplyInv(s, e0)
    requires i < |s.pubs| && s.pubs[i].HasRead? && Accepts(s.kv, s.pubs[i].index)
    ensures ReplyInv(StepPut(s, i, answered), e0)
  {
    CommitIsNew(s, i, e0);
    var t := StepPut(s, i, answered);
    forall j | 0 <= j < |t.returned|
      ensures OwnCommit(t, e0, t.returned[j].id, t.returned[j].epoch)
    {
      OwnStays(s, t, e0, s.returned[j].id, s.returned[j].epoch);
    }
    forall k | 0 <= k < |t.pubs| && t.pubs[k].Done?
      ensures OwnCommit(t, e0, t.pubs[k].id, t.pubs[k].epoch)
    {
      if k != i {
        OwnStays(s, t, e0, s.pubs[k].id, s.pubs[k].epoch);
      }
    }
  }

  lemma ReplyOther(s: System, t: System, e0: int)
    requires ReplyInv(s, e0) && ((exists i :: GoesOn(s, t, i)) || (SameHistory(s, t) && t.pubs == s.pubs))
    ensures ReplyInv(t, e0)
  {
  }

  lemma {:induction false} ReplyStep(s: System, l: Label, e0: int)
    requires PublishInv(s, e0) && CallInv(s) && ReplyInv(s, e0) && Enabled(s, l)
    ensures ReplyInv(Step(s, l), e0)
  {
    if l.Put? && Accepts(s.kv, s.pubs[l.i].index) {
      ReplyPut(s, l.i, l.answered, e0);
    } else if !l.Call? && !l.Return? {
      OtherSteps(s, l);
      ReplyOther(s, Step(s, l), e0);
    }
  }

  lemma AckPut(s: System, i: nat, answered: bool)
    requires AckInv(s) && CallInv(s) && i < |s.pubs| && s.pubs[i].HasRead?
    ensures AckInv(StepPut(s, i, answered))
  {
    var t, c := StepPut(s, i, answered), s.pubs[i].id;
    if Accepts(s.kv, s.pubs[i].index) {
      assert multiset(t.authors) == multiset(s.authors) + multiset{c};
      assert answered ==> multiset(t.acked) == multiset(s.acked) + multiset{c};
      assert !answered ==> multiset(t.lost) == multiset(s.lost) + multiset{c};
      assert multiset(s.acked)[c] == 0;
    }
  }

  lemma {:induction false} AckStep(s: System, l: Label)
    requires AckInv(s) && CallInv(s) && Enabled(s, l)
    ensures AckInv(Step(s, l))
  {
    if l.Put? {
      AckPut(s, l.i, l.answered);
    }
  }

  lemma OrderCall(s: System, i: nat, msg: string)
    requires OrderInv(s) && Enabled(s, Call(i, msg))
    ensures OrderInv(Step(s, Call(i, msg)))
  {
  }

  lemma OrderPut(s: System, i: nat, answered: bool)
    requires OrderInv(s) && i < |s.pubs| && s.pubs[i].HasRead?
    requires Accepts(s.kv, s.pubs[i].index) && s.pubs[i].value == s.kv.epoch
    ensures OrderInv(StepPut(s, i, answered))
  {
  }

  lemma OrderReturn(s: System, i: nat)
    requires OrderInv(s) && Enabled(s, Return(i))
    ensures OrderInv(Step(s, Return(i)))
  {
  }

  lemma OrderOther(s: System, t: System)
    requires OrderInv(s) && ((exists i :: GoesOn(s, t, i)) || (SameHistory(s, t) && t.pubs == s.pubs))
    ensures OrderInv(t)
  {
  }

  lemma {:induction false} OrderStep(s: System, l: Label, e0: int)
    requires PublishInv(s, e0) && OrderInv(s) && Enabled(s, l)
    ensures OrderInv(Step(s, l))
  {
    if l.Call? {
      OrderCall(s, l.i, l.msg);
    } else if l.Return? {
      OrderReturn(s, l.i);
    } else if l.Put? && Accepts(s.kv, s.pubs[l.i].index) {
      CommitIsNew(s, l.i, e0);
      OrderPut(s, l.i, l.answered);
    } else {
      OtherSteps(s, l);
      OrderOther(s, Step(s, l));
    }
  }

  lemma {:induction false} OnceStep(s: System, l: Label, e0: int)
    requires PublishInv(s, e0) && OrderInv(s) && OnceInv(s) && Enabled(s, l)
    ensures OnceInv(Step(s, l))
  {
    if l.Put? && Accepts(s.kv, s.pubs[l.i].index) {
      CommitIsNew(s, l.i, e0);
    }
  }

  lemma {:induction false} ReturnStep(s: System, l: Label, e0: int)
    requires PublishInv(s, e0) && ReturnInv(s, e0) && Enabled(s, l)
    ensures ReturnInv(Step(s, l), e0)
  {
    CallStep(s, l);
    ReplyStep(s, l, e0);
    OrderStep(s, l, e0);
    OnceStep(s, l, e0);
    AckStep(s, l);
  }

  lemma {:induction false} RunPublish(e0: nat, index: nat, clock: nat, n: nat, ls: seq<Label>)
    requires Checked(index, n) && index <= clock && Run(Start(e0, index, clock, n), ls).Some?
    ensures PublishInv(Run(Start(e0, index, clock, n), ls).value, e0)
    ensures ReturnInv(Run(Start(e0, index, clock, n), ls).value, e0)
    decreases |ls|
  {
    if ls != [] {
      RunPublish(e0, index, clock, n, ls[..|ls|-1]);
      ReturnStep(Run(Start(e0, index, clock, n), ls[..|ls|-1]).value, ls[|ls|-1], e0);
      PublishStep(Run(Start(e0, index, clock, n), ls[..|ls|-1]).value, ls[|ls|-1], e0);
    }
  }

  /** Committed epochs are contiguous, no queue key is written twice, the queue holds each message
      under its epoch, every message is that of the call that committed it, no call is given up, each
      returns an epoch of its own commits that no other call returns, one that began after another had
      returned has the larger epoch, and a call commits once more than its answers were lost. */
  ghost predicate Contiguous(s: System, e0: int) {
    && Consecutive(s.log, e0 + 1)
    && (forall i :: 0 <= i < |s.log| ==> s.log[i].epoch in s.kv.queue && s.kv.queue[s.log[i].epoch] == s.log[i].msg)
    && ReturnInv(s, e0)
  }

  /** Optimistic publishing is right in every run exactly when the epoch key has a positive index or there
      is but one publisher. */
  lemma PublishersIff(e0: nat, index: nat, clock: nat, n: nat)
    requires index <= clock
    ensures (forall ls :: Run(Start(e0, index, clock, n), ls).Some? ==>
                            Contiguous(Run(Start(e0, index, clock, n), ls).value, e0))
       <==> Checked(index, n)
  {
    if Checked(index, n) {
      forall ls | Run(Start(e0, index, clock, n), ls).Some?
        ensures Contiguous(Run(Start(e0, index, clock, n), ls).value, e0)
      {
        RunPublish(e0, index, clock, n, ls);
        QueueKeys(Run(Start(e0, index, clock, n), ls).value.log, e0 + 1);
      }
    } else {
      var ls := UncheckedRace(e0, clock, n);
    }
  }

  /** In every run a call that has returned has stored its message once, and once more for each answer that
      was lost. */
  lemma StoredOnce(e0: nat, index: nat, clock: nat, n: nat, ls: seq<Label>, s: System, c: nat)
    requires Checked(index, n) && index <= clock && Run(Start(e0, index, clock, n), ls) == Some(s) && HasReturned(s, c)
    ensures multiset(s.authors)[c] == 1 + multiset(s.lost)[c]
    ensures forall k :: 0 <= k < |s.authors| && s.authors[k] == c ==> k < |s.log| && c < |s.calls| && s.log[k].msg == s.calls[c].msg
  {
    RunPublish(e0, index, clock, n, ls);
    var j :| 0 <= j < |s.returned| && s.returned[j].id == c;
    assert c in s.acked;
    assert multiset(s.acked)[c] == 1;
  }

  /** From every state, a publisher that is left alone for a read, a put and a return commits its message under
      the next epoch and returns that. */
  lemma AloneCommits(s: System, i: nat) returns (t: System)
    requires i < |s.pubs| && s.pubs[i].Wants?
    ensures Run(s, [Read(i), Put(i, true), Return(i)]) == Some(t)
    ensures t.log == s.log + [Entry(s.kv.epoch + 1, s.pubs[i].msg)] && t.kv.epoch == s.kv.epoch + 1
    ensures t.returned == s.returned + [Reply(s.pubs[i].id, s.kv.epoch + 1)] && t.pubs == s.pubs[i := Idle]
  {
    var ls, s1 := Extend(s, [], s, Read(i));
    var ls2, s2 := Extend(s, ls, s1, Put(i, true));
    var ls3, s3 := Extend(s, ls2, s2, Return(i));
    assert ls3 == [Read(i), Put(i, true), Return(i)];
    t := s3;
  }

  /** With index zero the check is skipped and two publishers take the same epoch. */
  lemma UncheckedRace(e0: nat, clock: nat, n: nat) returns (ls: seq<Label>)
    requires n >= 2
    ensures Run(Start(e0, 0, clock, n), ls).Some? && !Contiguous(Run(Start(e0, 0, clock, n), ls).value, e0)
  {
    var s0 := Start(e0, 0, clock, n);
    ls := [];
    var s := s0;
    ls, s := Extend(s0, ls, s, Call(0, "a"));
    ls, s := Extend(s0, ls, s, Call(1, "b"));
    ls, s := Extend(s0, ls, s, Read(0));
    ls, s := Extend(s0, ls, s, Read(1));
    ls, s := Extend(s0, ls, s, Put(0, true));
    ls, s := Extend(s0, ls, s, Put(1, true));
    assert s.log[0].epoch == s.log[1].epoch;
  }

  lemma Extend(s0: System, ls: seq<Label>, s: System, l: Label) returns (ls': seq<Label>, t: System)
    requires Run(s0, ls) == Some(s) && Enabled(s, l)
    ensures ls' == ls + [l] && t == Step(s, l) && Run(s0, ls') == Some(t)
  {
    ls', t := ls + [l], Step(s, l);
    assert ls'[..|ls|] == ls;
  }

  // ---------------------------------------------------------------- the consumer

  /** `s` with immediate repetitions collapsed. */
  function Dedup(s: seq<Entry>): seq<Entry> {
    if |s| <= 1 then s
    else if s[|s|-1] == s[|s|-2] then Dedup(s[..|s|-1])
    else Dedup(s[..|s|-1]) + [s[|s|-1]]
  }

  lemma {:induction false} DedupPush(s: seq<Entry>, e: Entry)
    ensures Dedup(s + [e]) == if s != [] && s[|s|-1] == e then Dedup(s) else Dedup(s) + [e]
  {
    assert (s + [e])[..|s|] == s;
  }

  /** How many entries have been marked as read. */
  function Marked(s: System, e0: int): int {
    match s.kv.offset case None => 0 case Some(e) => e - e0
  }

  function Distinct(s: System): nat {
    |Dedup(s.delivered)|
  }

  predicate Flying(s: System) {
    s.con.Handling? && s.con.inFlight
  }

  /** With `d` entries marked: the deliveries are, up to repetitions, the first d or d + 1 entries, and
      the repetitions made or still owed are paid for by crashes. */
  predicate DeliverOk(log: seq<Entry>, first: int, d: int, delivered: seq<Entry>, flying: bool, crashes: nat) {
    DistinctOk(log, first, d, delivered, Dedup(delivered), flying, crashes)
  }

  predicate DistinctOk(log: seq<Entry>, first: int, d: int, delivered: seq<Entry>, distinct: seq<Entry>,
                       flying: bool, crashes: nat)
  {
    var v := |distinct|;
    && Consecutive(log, first)
    && 0 <= d <= v <= d + 1 && v <= |log|
    && distinct == log[..v]
    && (delivered != [] ==> v > 0 && delivered[|delivered|-1] == log[v-1])
    && (flying ==> v == d + 1)
    && |delivered| + (if v == d + 1 && !flying then 1 else 0) <= v + crashes
  }

  /** What the consumer still has to do starts right after what is marked. */
  predicate TodoOk(log: seq<Entry>, d: int, con: Consumer) {
    con.Handling? ==>
      con.todo != [] && 0 <= d && d + |con.todo| <= |log| && con.todo == log[d..d + |con.todo|]
  }

  ghost predicate ConsumeInv(s: System, e0: int) {
    && DeliverOk(s.log, e0 + 1, Marked(s, e0), s.delivered, Flying(s), s.crashes)
    && TodoOk(s.log, Marked(s, e0), s.con)
  }

  /** What a snapshot of the first `k` entries leaves to do after `d` of them are marked. */
  lemma {:induction false} TodoIsTail(log: seq<Entry>, k: nat, raw: seq<Entry>, e0: nat, kv: Store, d: nat)
    requires Consecutive(log, e0 + 1) && k <= |log| && multiset(raw) == multiset(log[..k])
    requires d == match kv.offset case None => 0 case Some(e) => e - e0
    ensures Prepare(raw, LastRead(kv)) == if d <= k then log[d..k] else []
  {
    var es := log[..k];
    PrepareInOrder(raw, es, e0 + 1, LastRead(kv));
    if d <= k {
      assert es[d..] == log[d..k];
    }
  }

  lemma {:induction false} ConsumeSnapshot(s: System, k: nat, raw: seq<Entry>, e0: nat)
    requires ConsumeInv(s, e0) && Enabled(s, Snapshot(k, raw))
    ensures ConsumeInv(Step(s, Snapshot(k, raw)), e0)
  {
    var d := Marked(s, e0);
    TodoIsTail(s.log, k, raw, e0, s.kv, d);
    assert TodoOk(s.log, d, Step(s, Snapshot(k, raw)).con);
  }

  lemma {:induction false} ProcessOne(log: seq<Entry>, first: int, delivered: seq<Entry>, d: nat, v: nat)
    requires Consecutive(log, first) && d < |log| && d <= v <= d + 1 && Dedup(delivered) == log[..v]
    requires delivered != [] ==> v > 0 && delivered[|delivered|-1] == log[v-1]
    ensures Dedup(delivered + [log[d]]) == log[..d+1]
  {
    DedupPush(delivered, log[d]);
    if v == d {
      assert delivered != [] ==> delivered[|delivered|-1] != log[d];
      assert log[..d] + [log[d]] == log[..d+1];
    } else {
      assert delivered != [];
    }
  }

  lemma {:induction false} DeliverProcess(log: seq<Entry>, first: int, d: nat, delivered: seq<Entry>, crashes: nat)
    requires DeliverOk(log, first, d, delivered, false, crashes) && d < |log|
    ensures DeliverOk(log, first, d, delivered + [log[d]], true, crashes)
  {
    ProcessOne(log, first, delivered, d, |Dedup(delivered)|);
    assert DistinctOk(log, first, d, delivered + [log[d]], log[..d+1], true, crashes);
  }

  lemma {:induction false} ConsumeProcess(s: System, e0: nat)
    requires ConsumeInv(s, e0) && Enabled(s, Process)
    ensures ConsumeInv(Step(s, Process), e0)
  {
    var d := Marked(s, e0);
    assert s.con.todo[0] == s.log[d];
    DeliverProcess(s.log, e0 + 1, d, s.delivered, s.crashes);
  }

  lemma {:induction false} ConsumeMark(s: System, e0: nat)
    requires ConsumeInv(s, e0) && Enabled(s, Mark)
    ensures ConsumeInv(Step(s, Mark), e0)
  {
    var d := Marked(s, e0);
    var n := |s.con.todo|;
    assert s.con.todo[0] == s.log[d];
    assert s.log[d..d + n][1..] == s.log[d + 1..d + n];
  }

  lemma {:induction false} ConsumeCrash(s: System, e0: nat)
    requires ConsumeInv(s, e0)
    ensures ConsumeInv(Step(s, Crash), e0)
  {
  }

  /** Publishing only extends the log. */
  lemma {:induction false} ConsumeLonger(s: System, t: System, e0: nat)
    requires ConsumeInv(s, e0) && s.log <= t.log && Consecutive(t.log, e0 + 1)
    requires t.con == s.con && t.delivered == s.delivered && t.crashes == s.crashes && t.kv.offset == s.kv.offset
    ensures ConsumeInv(t, e0)
  {
    var d, v := Marked(s, e0), Distinct(s);
    assert t.log[..v] == s.log[..v];
    if s.con.Handling? {
      var n := |s.con.todo|;
      assert t.log[d..d + n] == s.log[d..d + n];
    }
  }

  lemma {:induction false} ConsumeStep(s: System, l: Label, e0: nat)
    requires PublishInv(s, e0) && ConsumeInv(s, e0) && Enabled(s, l)
    ensures ConsumeInv(Step(s, l), e0)
  {
    match l {
      case Snapshot(k, raw) => ConsumeSnapshot(s, k, raw, e0);
      case Process => ConsumeProcess(s, e0);
      case Mark => ConsumeMark(s, e0);
      case Crash => ConsumeCrash(s, e0);
      case _ =>
        PublishStep(s, l, e0);
        ConsumeLonger(s, Step(s, l), e0);
    }
  }

  lemma {:induction false} RunConsume(e0: nat, index: nat, clock: nat, n: nat, ls: seq<Label>)
    requires Checked(index, n) && index <= clock && Run(Start(e0, index, clock, n), ls).Some?
    ensures ConsumeInv(Run(Start(e0, index, clock, n), ls).value, e0)
    decreases |ls|
  {
    if ls != [] {
      RunConsume(e0, index, clock, n, ls[..|ls|-1]);
      RunPublish(e0, index, clock, n, ls[..|ls|-1]);
      ConsumeStep(Run(Start(e0, index, clock, n), ls[..|ls|-1]).value, ls[|ls|-1], e0);
    }
  }

  /** End to end: up to immediate repetitions the processor receives an initial part of the published
      sequence, entry for entry, and at most one repetition per crash; whatever is marked as read was
      delivered. */
  lemma {:induction false} DeliveredInOrder(e0: nat, index: nat, clock: nat, n: nat, ls: seq<Label>, s: System)
    requires Checked(index, n) && index <= clock && Run(Start(e0, index, clock, n), ls) == Some(s)
    ensures Dedup(s.delivered) <= s.log
    ensures |s.delivered| <= |Dedup(s.delivered)| + s.crashes
    ensures s.kv.offset.Some? ==> 0 <= s.kv.offset.value - e0 <= |Dedup(s.delivered)| <= s.kv.offset.value - e0 + 1
  {
    RunConsume(e0, index, clock, n, ls);
  }

  /** A consumer left alone with a full snapshot catches up with everything published. */
  lemma {:induction false} RestMeansCaughtUp(e0: nat, index: nat, clock: nat, n: nat, ls: seq<Label>, s: System, raw: seq<Entry>)
    requires Checked(index, n) && index <= clock && Run(Start(e0, index, clock, n), ls) == Some(s)
    requires Enabled(s, Snapshot(|s.log|, raw)) && Step(s, Snapshot(|s.log|, raw)).con.Rest?
    ensures Dedup(s.delivered) == s.log
  {
    RunConsume(e0, index, clock, n, ls);
    var d := Marked(s, e0);
    assert s.log[..|s.log|] == s.log;
    PrepareInOrder(raw, s.log, e0 + 1, LastRead(s.kv));
    assert d >= |s.log|;
  }

  // ---------------------------------------------------------------- a consumer that is not interrupted

  function Rounds(k: nat): seq<Label> {
    if k == 0 then [] else Rounds(k - 1) + [Process] + [Mark]
  }

  /** `s` after its consumer has processed and marked `j` of the entries it has to do. */
  function AfterRounds(s: System, j: nat): System
    requires s.con.Handling? && j <= |s.con.todo|
  {
    var todo := s.con.todo;
    if j == 0 then s
    else
      s.(delivered := s.delivered + todo[..j], kv := s.kv.(offset := Some(todo[j-1].epoch)),
         con := if j == |todo| then Rest else Handling(todo[j..], false))
  }

  lemma OneRound(s: System, j: nat)
    requires s.con.Handling? && !s.con.inFlight && j < |s.con.todo|
    ensures var t := AfterRounds(s, j);
            Enabled(t, Process) && Enabled(Step(t, Process), Mark) && Step(Step(t, Process), Mark) == AfterRounds(s, j + 1)
  {
    var todo := s.con.todo;
    assert todo[j..][0] == todo[j] && todo[j..][1..] == todo[j+1..] && todo[0..] == todo;
    assert s.delivered + todo[..0] == s.delivered;
    assert (s.delivered + todo[..j]) + [todo[j]] == s.delivered + todo[..j+1];
  }

  /** It processes and marks everything it has to do, one entry after the other. */
  lemma {:induction false} HandlesAll(s: System, j: nat)
    requires s.con.Handling? && !s.con.inFlight && j <= |s.con.todo|
    ensures Run(s, Rounds(j)) == Some(AfterRounds(s, j))
  {
    if j > 0 {
      HandlesAll(s, j - 1);
      OneRound(s, j - 1);
      var t := AfterRounds(s, j - 1);
      var ls, u := Extend(s, Rounds(j - 1), t, Process);
      var ls', v := Extend(s, ls, u, Mark);
    }
  }

  /** From every state of every run, a consumer at rest that is given a full snapshot and not interrupted
      delivers the rest of what was published and then rests. */
  lemma CatchesUp(e0: nat, index: nat, clock: nat, n: nat, ls: seq<Label>, s: System, raw: seq<Entry>) returns (t: System)
    requires Checked(index, n) && index <= clock && Run(Start(e0, index, clock, n), ls) == Some(s)
    requires Enabled(s, Snapshot(|s.log|, raw))
    ensures exists more :: Run(s, more) == Some(t)
    ensures t.con.Rest? && t.delivered == s.delivered + Prepare(raw, LastRead(s.kv)) && t.log == s.log
    ensures Dedup(t.delivered) == t.log
  {
    var ls1, s1 := [Snapshot(|s.log|, raw)], Step(s, Snapshot(|s.log|, raw));
    var k := |Prepare(raw, LastRead(s.kv))|;
    assert [Snapshot(|s.log|, raw)][..0] == [];
    assert Run(s, []) == Some(s);
    assert Run(s, ls1) == Some(s1);
    if k == 0 {
      t := s1;
      assert s.delivered + Prepare(raw, LastRead(s.kv)) == s.delivered;
      RestMeansCaughtUp(e0, index, clock, n, ls, s, raw);
    } else {
      HandlesAll(s1, k);
      t := AfterRounds(s1, k);
      RunAppend(s, ls1, Rounds(k));
      assert s1.con.todo[..k] == s1.con.todo;
      AllDelivered(e0, index, clock, n, ls, s, raw, ls1 + Rounds(k), t);
    }
  }

  lemma {:induction false} RunAppend(s: System, a: seq<Label>, b: seq<Label>)
    requires Run(s, a).Some?
    ensures Run(s, a + b) == Run(Run(s, a).value, b)
    decreases |b|
  {
    if b == [] {
      assert a + b == a;
    } else {
      var last := b[|b|-1];
      RunAppend(s, a, b[..|b|-1]);
      assert (a + b)[..|a + b|-1] == a + b[..|b|-1];
      assert (a + b)[|a + b|-1] == last;
    }
  }

  /** Once the last entry published is marked, everything has been delivered. */
  lemma AllDelivered(e0: nat, index: nat, clock: nat, n: nat, ls: seq<Label>, s: System, raw: seq<Entry>,
                     more: seq<Label>, t: System)
    requires Checked(index, n) && index <= clock && Run(Start(e0, index, clock, n), ls) == Some(s)
    requires Run(s, more) == Some(t) && t.log == s.log && multiset(raw) == multiset(s.log[..|s.log|])
    requires var todo := Prepare(raw, LastRead(s.kv)); todo != [] && t.kv.offset == Some(todo[|todo|-1].epoch)
    ensures Dedup(t.delivered) == t.log
  {
    RunConsume(e0, index, clock, n, ls);
    RunAppend(Start(e0, index, clock, n), ls, more);
    RunConsume(e0, index, clock, n, ls + more);
    assert s.log[..|s.log|] == s.log;
    TodoIsTail(s.log, |s.log|, raw, e0, s.kv, Marked(s, e0));
    assert Marked(t, e0) == |s.log|;
  }
}
